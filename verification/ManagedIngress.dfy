/** The per-request object that arbitrates between reads, cancellation and the deadline. */
module ManagedIngress {
  import opened ExpiryProtocol
  import opened IngressMachine

  class ManagedResponse {
    const protocol: AcceptedExpiryProtocol
    const sse: bool
    ghost const start: Protocol  // the protocol as it was when the response was wrapped
    var expired: bool
    var settled: bool
    var pulling: bool
    var reader: bool
    var cancels: nat
    // the output stream
    var status: Status
    var out: seq<Piece>
    var finishes: nat
    var faults: nat
    // what was read from upstream
    var taken: seq<Chunk>

    ghost function Abstract(): State
      reads this, protocol
    {
      State(sse, protocol.Abstract(), expired, settled, status, out, taken, pulling, reader, cancels, finishes, faults)
    }

    ghost predicate Valid()
      reads this, protocol
    {
      Inv(Abstract(), start)
    }

    constructor (sse: bool, protocol: AcceptedExpiryProtocol)
      ensures Valid() && this.protocol == protocol && this.sse == sse && start == protocol.Abstract()
      ensures Abstract() == Wrapped(sse, start)
    {
      this.sse, this.protocol := sse, protocol;
      start := protocol.Abstract();
      expired, settled, pulling, reader, cancels := false, false, false, true, 0;
      status, out, finishes, faults, taken := Open, [], 0, 0, [];
      new;
      WrappedKeeps(sse, start);
    }

    // ---- the output stream; `thrown` tells that the call was rejected ----

    method Enqueue(piece: Piece) returns (thrown: bool)
      modifies this`out, this`faults
      ensures Abstract() == IngressMachine.Enqueue(old(Abstract()), piece) && thrown == (old(status) != Open)
    {
      thrown := status != Open;
      if thrown { faults := faults + 1; } else { out := out + [piece]; }
    }

    method CloseOutput() returns (thrown: bool)
      modifies this`status, this`finishes, this`faults
      ensures Abstract() == Close(old(Abstract())) && thrown == (old(status) != Open)
    {
      thrown := status != Open;
      finishes := finishes + 1;
      if thrown { faults := faults + 1; } else { status := Closed; }
    }

    method FailOutput()
      modifies this`status, this`finishes
      ensures Abstract() == Fail(old(Abstract()))
    {
      finishes := finishes + 1;
      if status == Open { status := Errored; }
    }

    // ---- the request ----

    method Dispose()
      modifies this`settled, protocol`observing
      ensures Abstract() == IngressMachine.Dispose(old(Abstract()))
    {
      if settled { return; }
      settled := true;
      protocol.Close();
    }

    method CancelOwned()
      modifies this`cancels
      ensures Abstract() == IngressMachine.CancelOwned(old(Abstract()))
    {
      if cancels > 0 { return; }
      cancels := 1;
    }

    method Expire()
      requires Valid()
      modifies this, protocol`observing
      ensures Valid() && Abstract() == IngressMachine.Expire(old(Abstract()))
    {
      hide Inv;
      StepKeeps(Abstract(), start, DoExpire);
      if expired || settled { return; }
      expired := true;
      if sse {
        var terminal := protocol.Terminal();
        var thrown := Enqueue(Synthetic(terminal));
        if !thrown { thrown := CloseOutput(); }
      } else {
        FailOutput();
      }
      if reader { CancelOwned(); }
      Dispose();
    }

    method Pull()
      requires Valid()
      modifies this`pulling
      ensures Valid() && Abstract() == IngressMachine.Pull(old(Abstract()))
    {
      hide Inv;
      StepKeeps(Abstract(), start, DoPull);
      if status == Open { pulling := true; }
    }

    method ReadChunk(chunk: Chunk)
      requires Valid() && pulling
      modifies this, protocol
      ensures Valid() && Abstract() == IngressMachine.ReadChunk(old(Abstract()), chunk)
    {
      hide Inv;
      StepKeeps(Abstract(), start, DoReadChunk(chunk));
      pulling, taken := false, taken + [chunk];
      if expired || settled { return; }
      if sse { protocol.Observe(chunk); }
      var thrown := Enqueue(Upstream(chunk));
      if thrown {
        FailOutput();
        Dispose();
      }
    }

    method ReadDone()
      requires Valid() && pulling
      modifies this, protocol`observing
      ensures Valid() && Abstract() == IngressMachine.ReadDone(old(Abstract()))
    {
      hide Inv;
      StepKeeps(Abstract(), start, DoReadDone);
      pulling := false;
      if expired || settled { return; }
      var thrown := CloseOutput();
      if thrown { FailOutput(); }
      Dispose();
    }

    method ReadFailed()
      requires Valid() && pulling
      modifies this, protocol`observing
      ensures Valid() && Abstract() == IngressMachine.ReadFailed(old(Abstract()))
    {
      hide Inv;
      StepKeeps(Abstract(), start, DoReadFailed);
      pulling := false;
      if !expired && !settled {
        FailOutput();
        Dispose();
      }
    }

    method Cancel()
      requires Valid()
      modifies this, protocol`observing
      ensures Valid() && Abstract() == IngressMachine.Cancel(old(Abstract()))
    {
      hide Inv;
      StepKeeps(Abstract(), start, DoCancel);
      if status != Open { return; }
      status := Cancelled;
      Dispose();
      CancelOwned();
    }

    method CleanupEnds()
      requires Valid()
      modifies this`reader
      ensures Valid() && Abstract() == IngressMachine.CleanupEnds(old(Abstract()))
    {
      hide Inv;
      StepKeeps(Abstract(), start, DoCleanup);
      if cancels > 0 { reader := false; }
    }
  }
}
