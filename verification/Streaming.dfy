/** The order stream's shared variables as the object the reader and the hydrations update. Each method is a section the
    source runs under the handoff lock, tied to the step of the handoff protocol it is. */
module Streaming {
  import opened Wrappers
  import opened Ledger
  import opened Handoff
  import opened Reconciler

  class OrderStream {
    const reconciler: QuoteReconciler
    var hydrationGeneration: nat
    var hydrating: bool
    var recovering: bool
    var pending: seq<OrderEvent>
    var pendingKeys: set<OrderEvent>
    var pendingErr: bool

    /** The variables as the protocol's control state. */
    ghost function View(): Control
      reads this
    {
      Control(hydrationGeneration, hydrating, pending, pendingKeys, pendingErr)
    }

    constructor (reconciler: QuoteReconciler)
      ensures this.reconciler == reconciler && View() == Control(0, true, [], {}, false) && !recovering
      ensures View() == Init().control && recovering == Init().recovering
    {
      this.reconciler := reconciler;
      hydrationGeneration, hydrating, recovering := 0, true, false;
      pending, pendingKeys, pendingErr := [], {}, false;
    }

    /** Queues an event unless an equal one is queued or was swapped out; a full queue refuses it. */
    method EnqueuePending(evt: OrderEvent) returns (queued: bool)
      modifies this`pending, this`pendingKeys
      ensures queued <==> evt in old(pendingKeys) || |old(pending)| < 4096
      ensures pending == old(pending) + (if queued && evt !in old(pendingKeys) then [evt] else [])
      ensures pendingKeys == old(pendingKeys) + if queued then {evt} else {}
      ensures (pending, pendingKeys, queued) == old(Enqueue(pending, pendingKeys, evt))
    {
      if evt in pendingKeys {
        return true;
      }
      if |pending| >= MAX_PENDING {
        return false;
      }
      pendingKeys := pendingKeys + {evt};
      pending := pending + [evt];
      return true;
    }

    /** The reader takes an event: into the queue while hydrating, otherwise straight to the ledger. */
    method Receive(evt: OrderEvent)
      requires reconciler.Valid()
      modifies this, reconciler
      ensures reconciler.Valid() && recovering == old(recovering)
      ensures pendingErr <==> old(pendingErr) || (old(hydrating) && evt !in old(pendingKeys) && |old(pending)| >= 4096)
      ensures hydrating == old(hydrating) && hydrationGeneration == old(hydrationGeneration)
      ensures pending == if old(hydrating) && evt !in old(pendingKeys) && |old(pending)| < 4096 then old(pending) + [evt]
                         else old(pending)
      ensures View() == old(if hydrating then Queue(View(), evt) else View())
      ensures reconciler.resting ==
              old(if hydrating then reconciler.resting else ApplyEvent(reconciler.config.symbol, reconciler.resting, evt))
    {
      hide ApplyEvent, GoodLedger;
      if hydrating {
        var queued := EnqueuePending(evt);
        if !queued {
          pendingErr := true;
        }
        return;
      }
      reconciler.ApplyOrderEvent(Some(evt));
    }

    /** The reader sees the connection drop; further drops during one recovery are one. */
    method ConnectionLost()
      modifies this
      ensures !old(recovering) ==> View() == Control(old(hydrationGeneration) + 1, true, [], {}, false)
      ensures recovering && View() == old(if recovering then View() else NewGeneration(View()))
    {
      if !recovering {
        hydrationGeneration := hydrationGeneration + 1;
        hydrating := true;
        pending, pendingKeys, pendingErr := [], {}, false;
        recovering := true;
      }
    }

    /** A hydration of a generation looks at the queue and takes what is there. */
    method TakeBatch(generation: nat) returns (outcome: Swapped)
      modifies this
      ensures outcome.Stale? <==> generation != old(hydrationGeneration)
      ensures outcome.Overflowed? <==> generation == old(hydrationGeneration) && old(pendingErr)
      ensures outcome.CaughtUp? <==> generation == old(hydrationGeneration) && !old(pendingErr) && old(pending) == []
      ensures outcome.Batch? ==> outcome.events == old(pending)
      ensures View() == match outcome
                        case Stale => old(View())
                        case Overflowed => old(View())
                        case CaughtUp => old(View()).(keys := {}, hydrating := false)
                        case Batch(_) => old(View()).(pending := [])
      ensures outcome == old(SwapOutcome(View(), generation)) && View() == old(AfterSwap(View(), generation))
      ensures recovering == old(recovering)
    {
      if generation != hydrationGeneration {
        return Stale;
      }
      if pendingErr {
        return Overflowed;
      }
      var batch := pending;
      pending := [];
      if |batch| == 0 {
        pendingKeys, pendingErr, hydrating := {}, false, false;
        return CaughtUp;
      }
      return Batch(batch);
    }

    /** Applies a batch in order. */
    method ReplayBatch(batch: seq<OrderEvent>)
      requires reconciler.Valid()
      modifies reconciler
      ensures reconciler.Valid()
      ensures reconciler.resting == ApplyEvents(reconciler.config.symbol, old(reconciler.resting), batch)
    {
      hide ApplyEvent, GoodLedger;
      for i := 0 to |batch|
        invariant reconciler.Valid()
        invariant reconciler.resting == ApplyEvents(reconciler.config.symbol, old(reconciler.resting), batch[..i])
      {
        assert batch[..i + 1][..i] == batch[..i];
        reconciler.ApplyOrderEvent(Some(batch[i]));
      }
      assert batch[..|batch|] == batch;
    }

    /** `hydrateAndReplay` when nothing happens in between: the snapshot with the queued events applied to it, or an error
        that leaves the handoff open. */
    method HydrateAndReplay(reply: Option<seq<ListedOrder>>) returns (ok: bool)
      requires reconciler.Valid()
      modifies this, reconciler
      ensures reconciler.Valid() && recovering == old(recovering)
      ensures ok <==> reply.Some? && !old(pendingErr)
      ensures ok ==> View() == Control(old(hydrationGeneration), false, [], {}, false)
      ensures ok ==> reconciler.resting ==
                     ApplyEvents(reconciler.config.symbol, Snapshot(reconciler.config.symbol, reply.value), old(pending))
      ensures !ok ==> View() == old(View())
    {
      hide ApplyEvent, Snapshot, GoodLedger;
      var generation := hydrationGeneration;
      var fetched := reconciler.Hydrate(reply);
      if !fetched {
        return false;
      }
      ghost var base := reconciler.resting;
      assert ApplyEvents(reconciler.config.symbol, base, []) == base;
      while true
        invariant reconciler.Valid() && recovering == old(recovering) && hydrationGeneration == generation
        invariant
          || (reconciler.resting == base && View() == old(View()))
          || (pending == [] && !pendingErr && !old(pendingErr)
              && reconciler.resting == ApplyEvents(reconciler.config.symbol, base, old(pending)))
        decreases |pending|
      {
        var outcome := TakeBatch(generation);
        match outcome
        case Stale => return true;
        case Overflowed => return false;
        case CaughtUp => return true;
        case Batch(events) => ReplayBatch(events);
      }
    }
  }
}
