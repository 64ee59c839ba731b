/**
 * Writing one batch to a connection (`server_queuesend` in `server.c`). What
 * the stream and the poll answer is up to the outside world.
 */
module Senders {
  import opened Common

  const FAIL_WAIT_COUNT := 6

  /** Outcome of a stream write: the whole metric, no buffer space left, or anything else. */
  datatype Wrote = Whole | NoRoom | Fault

  /** Outcome of a poll: writable, connection given up, or an error event on it. */
  datatype Polled = Ready | GivenUp | ErrorEvent

  class Sender {
    var open: bool
    var failure: nat
    var metrics: nat

    // Every metric the stream has taken, how many there were before the current
    // batch, and how many behind those its last successful flush covered.
    ghost var log: seq<string>
    ghost var base: nat
    ghost var synced: nat

    // What the stream and the poll answered during the current batch: a write
    // without room not followed by another one yet, a failed write, a failed
    // flush, and a poll that was not ready with the connection left open.
    ghost var tight: bool
    ghost var badWrite: bool
    ghost var badFlush: bool
    ghost var errorEvent: bool

    ghost predicate Valid()
      reads this
    {
      failure <= FAIL_WAIT_COUNT && base + synced <= |log|
    }

    /** Every answer was a good one so far. */
    ghost predicate Smooth()
      reads this
    {
      open && !badWrite && !badFlush && !errorEvent
    }

    constructor ()
      ensures Valid() && !open && failure == 0 && log == []
    {
      open, failure, metrics := false, 0, 0;
      log, base, synced := [], 0, 0;
      tight, badWrite, badFlush, errorEvent := false, false, false, false;
    }

    method AddFailure() returns (before: nat)
      requires Valid()
      modifies this`failure
      ensures Valid() && before == old(failure)
      ensures failure == if old(failure) < FAIL_WAIT_COUNT then old(failure) + 1 else FAIL_WAIT_COUNT
    {
      before := failure;
      if before < FAIL_WAIT_COUNT {
        failure := failure + 1;
      }
    }

    /** The stream takes the metric as a whole or not at all; no room twice in a row is a failure. */
    method Write(metric: string) returns (w: Wrote)
      requires Valid() && open
      modifies this`log, this`tight, this`badWrite
      ensures Valid() && log == old(log) + if w.Whole? then [metric] else []
      ensures tight == w.NoRoom?
      ensures badWrite == (old(badWrite) || w.Fault? || (w.NoRoom? && old(tight)))
    {
      w := *;
      if w.Whole? {
        log := log + [metric];
      }
      badWrite := badWrite || w.Fault? || (w.NoRoom? && tight);
      tight := w.NoRoom?;
    }

    method Flush() returns (ok: bool)
      requires Valid() && open
      modifies this`synced, this`badFlush
      ensures Valid() && synced == if ok then |log| - base else old(synced)
      ensures badFlush == (old(badFlush) || !ok)
    {
      ok := *;
      if ok {
        synced := |log| - base;
      }
      badFlush := badFlush || !ok;
    }

    /** Only an open connection is ever ready; one that is not is closed or has an error event. */
    method Poll() returns (ready: bool)
      requires Valid()
      modifies this`open, this`failure, this`errorEvent
      ensures Valid() && (open ==> old(open))
      ensures ready ==> open && errorEvent == old(errorEvent) && failure == old(failure)
      ensures !ready ==> !open || errorEvent
      ensures old(errorEvent) ==> errorEvent
    {
      if !open {
        return false;
      }
      var r: Polled := *;
      match r
      case Ready => return true;
      case GivenUp =>
        open := false;
        return false;
      case ErrorEvent =>
        var before := AddFailure();
        errorEvent := true;
        return false;
    }

    /** The write without room: a flush and a poll, and another try. `None` if that did not come about. */
    method Retry(metric: string, sended: nat) returns (flushed: bool, w: Option<Wrote>)
      requires Valid() && open && tight
      modifies this`open, this`failure, this`metrics, this`log, this`synced, this`tight, this`badWrite, this`badFlush,
               this`errorEvent
      ensures Valid() && log == old(log) + if w == Some(Whole) then [metric] else []
      ensures synced == if flushed then |old(log)| - base else old(synced)
      ensures metrics == old(metrics) + if flushed then sended else 0
      ensures old(Smooth()) && w == Some(Whole) ==> Smooth()
      ensures w.Some? ==> flushed && open && tight == (w == Some(NoRoom)) && (w != Some(Whole) ==> badWrite)
      ensures w.None? ==> !open || badFlush || errorEvent
    {
      flushed := Flush();
      if !flushed {
        return false, None;
      }
      metrics := metrics + sended;
      var ready := Poll();
      if !ready {
        return true, None;
      }
      var again := Write(metric);
      return true, Some(again);
    }

    /** One turn of the write loop: the metric is taken, or the loop is over for a reason. */
    method WriteOne(metric: string, sended: nat) returns (took: bool, made: bool)
      requires Valid() && !tight && Smooth()
      modifies this`open, this`failure, this`metrics, this`log, this`synced, this`tight, this`badWrite, this`badFlush,
               this`errorEvent
      ensures Valid() && log == old(log) + if took then [metric] else []
      ensures synced == if made then |old(log)| - base else old(synced)
      ensures metrics == old(metrics) + if made then sended else 0
      ensures took ==> !tight && Smooth()
      ensures !took ==> !open || badFlush || errorEvent
    {
      var w := Write(metric);
      made := false;
      if w.NoRoom? {
        var again;
        made, again := Retry(metric, sended);
        if again.None? {
          return false, made;
        }
        w := again.value;
      }
      took := w.Whole?;
      if !took {
        var before := AddFailure();
        open := false;
      }
    }

    /** What is written and not flushed yet is flushed, if the connection is ready. */
    method FlushRest()
      requires Valid() && base + synced < |log|
      modifies this`open, this`failure, this`synced, this`badFlush, this`errorEvent
      ensures Valid() && (open ==> old(open))
      ensures synced == old(synced) || synced == |log| - base
      ensures !open ==> synced == old(synced)
      ensures open && base + synced < |log| ==> errorEvent
      ensures (old(badFlush) ==> badFlush) && (old(errorEvent) ==> errorEvent)
    {
      var ready := Poll();
      if ready {
        var ok := Flush();
        if !ok {
          var before := AddFailure();
          open := false;
        }
      }
    }

    /**
     * The write loop and the final flush. What goes out is a front part of the
     * batch, in order: all of it, and flushed, unless some answer was a bad
     * one. A connection that is closed at the end leaves `flushed` at the last
     * successful flush; one that is left open has written all of the batch
     * unless a flush failed or a poll met an error event.
     */
    method WriteBatch(batch: seq<string>) returns (flushed: nat, total: nat)
      requires Valid() && open
      modifies this
      ensures Valid() && flushed <= total <= |batch|
      ensures log == old(log) + batch[..total] && base == |old(log)|
      ensures Smooth() ==> total == |batch| == synced
      ensures open && total < |batch| ==> badFlush || errorEvent
      ensures open && synced < total ==> errorEvent
      ensures !open ==> flushed == synced
      ensures open ==> synced == flushed || synced == total
      ensures metrics == old(metrics) + flushed
    {
      var sended, i := 0, 0;
      flushed, total := 0, 0;
      base, synced := |log|, 0;
      tight, badWrite, badFlush, errorEvent := false, false, false, false;
      assert batch[..0] == [];
      while i < |batch|
        invariant Valid() && open && i <= |batch| && base == |old(log)|
        invariant total == flushed + sended == i && synced == flushed
        invariant log == old(log) + batch[..total]
        invariant !tight && Smooth()
        invariant metrics == old(metrics) + flushed
      {
        assert batch[..i + 1] == batch[..i] + [batch[i]];
        var took, made := WriteOne(batch[i], sended);
        if made {
          flushed, sended := flushed + sended, 0;
        }
        if !took {
          break;
        }
        sended, total := sended + 1, total + 1;
        i := i + 1;
      }
      if flushed < total {
        FlushRest();
      }
    }

    /** A batch that ends well takes one failure off the connection's record. */
    method Recover()
      requires Valid() && open
      modifies this`failure
      ensures Valid() && failure == if old(failure) > 0 then old(failure) - 1 else 0
    {
      if failure > 0 {
        failure := failure - 1;
      }
    }
  }
}
