/**
 The world outside the process, shared by the classes that model it: the watch channel of the NATS
 connection and, as ghost state, the protocol state that the running code has reached. Whatever the
 code does is matched by steps of the protocol, so every state it passes through is reachable there.
 */
module Outside {
  import opened Wrappers
  import opened Spans
  import opened Protocol

  /** What the environment may change while the process waits. */
  ghost predicate EnvironmentMoved(s: State, t: State) {
    && t == s.(conn := t.conn, unseen := t.unseen, stored := t.stored)
    && (forall m :: m in s.stored ==> m in t.stored)
    && (s.unseen ==> t.unseen)
  }

  /** What the environment has ready for the main loop when it polls. */
  datatype Signal = Quiet | TickDue | ShutdownAsked | Killed

  /** All that the environment has decided so far; only the methods that let it decide extend this. */
  datatype Record = Record(
    log: seq<Message>,      // publishes that the network acknowledged, in order
    refused: seq<Message>,  // publishes that it answered with a failure, in order
    signals: seq<Signal>,   // what each poll of the main loop found
    heads: seq<nat>,        // answers to the question for the head of the chain
    cuts: nat,              // waits of branch 4 that an earlier branch has ended
    kills: nat)             // processes killed while a handler waited

  ghost function Acknowledged(record: Record, m: Message): Record {
    record.(log := record.log + [m])
  }

  ghost function Refused(record: Record, m: Message): Record {
    record.(refused := record.refused + [m])
  }

  ghost function Signalled(record: Record, signal: Signal): Record {
    record.(signals := record.signals + [signal])
  }

  ghost function CutShort(record: Record): Record {
    record.(cuts := record.cuts + 1)
  }

  class World {
    ghost const cfg: Config
    var conn: Connection   // value of the connection's watch channel
    var unseen: bool       // whether the main loop has yet to see a change
    var patience: nat      // polls of branch 4 until an earlier branch is ready
    ghost var sys: State
    ghost var record: Record

    constructor (ghost cfg: Config)
      requires DistinctMessages(cfg)
      ensures Valid() && sys == Init() && this.cfg == cfg && fresh(this)
      ensures record == Record([], [], [], [], 0, 0)
    {
      this.cfg := cfg;
      conn := Disconnected;
      unseen := false;
      patience := *;
      sys := Init();
      record := Record([], [], [], [], 0, 0);
      InitIsReachable(cfg);
    }

    ghost predicate Valid()
      reads this
    {
      DistinctMessages(cfg) && Reachable(cfg, sys) && sys.conn == conn && sys.unseen == unseen
    }

    /** The running code takes a step of the protocol. */
    ghost method Take(step: Step)
      requires Reachable(cfg, sys) && Enabled(cfg, sys, step)
      modifies this`sys
      ensures Reachable(cfg, sys) && sys == Apply(cfg, old(sys), step)
    {
      ReachableStep(cfg, sys, step);
      sys := Apply(cfg, sys, step);
    }

    /** An await point: any number of connection changes, and messages on the network arriving. */
    method Await()
      requires Valid() && !sys.pc.Down?
      modifies this`conn, this`unseen, this`sys
      ensures Valid() && EnvironmentMoved(old(sys), sys)
    {
      var moves: nat := *;
      while moves > 0
        invariant Valid() && EnvironmentMoved(old(sys), sys)
      {
        if * {
          conn, unseen := Connected, true;
          Take(NatsUp);
        } else if * {
          conn, unseen := Disconnected, true;
          Take(NatsDown);
        } else {
          Arrives();
        }
        moves := moves - 1;
      }
    }

    /** A message sent at some time, by this run or an earlier one, reaches the stream. */
    ghost method Arrives()
      requires Valid() && !sys.pc.Down?
      modifies this`sys
      ensures Valid() && EnvironmentMoved(old(sys), sys)
    {
      if m :| m in sys.sent && !HasId(sys.stored, m) {
        Take(Store(m));
      }
    }

    // ----- What the environment decides -----

    /** `do_publish`: may fail at any time; an acknowledgement means the stream holds the message's id. */
    method DoPublish(ghost m: Message) returns (ok: bool)
      requires Valid() && !sys.pc.Down? && m in sys.sent
      modifies this`conn, this`unseen, this`sys, this`record
      ensures Valid() && EnvironmentMoved(old(sys), sys)
      ensures record == if ok then Acknowledged(old(record), m) else Refused(old(record), m)
      ensures ok ==> HasId(sys.stored, m)
    {
      Await();
      ok := *;
      if ok {
        StoreNow(m);
      }
      record := if ok then Acknowledged(record, m) else Refused(record, m);
    }

    /** Whether branch 4 is dropped while it waits for an acknowledgement. */
    method MayCut() returns (cut: bool)
      modifies this`record
      ensures record == if cut then CutShort(old(record)) else old(record)
    {
      cut := *;
      record := if cut then CutShort(record) else record;
    }

    /** Branch 4 waits, and is polled again, unless one of the branches before it is ready by then: it is dropped. */
    method Waits() returns (polled: bool)
      requires Valid() && !sys.pc.Down?
      modifies this`conn, this`unseen, this`sys, this`patience, this`record
      ensures Valid() && EnvironmentMoved(old(sys), sys)
      ensures polled ==> !unseen && patience < old(patience) && record == old(record)
      ensures !polled ==> record == CutShort(old(record))
    {
      Await();
      polled := patience > 0 && !unseen;
      if polled {
        patience := patience - 1;
      } else {
        patience := *;
        record := CutShort(record);
      }
    }

    /** The main loop polls: is there a signal for it? After branch 4 was dropped there is, or an unseen change. */
    method Poll(dropped: bool) returns (signal: Signal)
      requires Valid() && !sys.pc.Down?
      modifies this`conn, this`unseen, this`sys, this`record
      ensures Valid() && record == Signalled(old(record), signal)
      ensures signal.Killed? ==> sys.pc.Down? && sys.disk == old(sys).disk
      ensures !signal.Killed? ==> EnvironmentMoved(old(sys), sys)
      ensures dropped && signal.Quiet? ==> unseen
    {
      Await();
      signal := *;
      if dropped && signal.Quiet? && !unseen {
        signal := TickDue;
      }
      if signal.Killed? {
        conn, unseen := Disconnected, false;
        Take(Kill);
      }
      record := Signalled(record, signal);
    }

    /** The head of the chain. */
    method Head(horizon: u64) returns (latest: u64)
      modifies this`record
      ensures latest <= horizon && record == old(record).(heads := old(record).heads + [latest])
    {
      latest :| latest <= horizon;
      record := record.(heads := record.heads + [latest]);
    }

    /** Whether the process is killed while a handler waits. */
    method MayDie() returns (killed: bool)
      requires Valid() && !sys.pc.Down?
      modifies this`conn, this`unseen, this`sys, this`record
      ensures Valid() && sys == if killed then Stop(old(sys)) else old(sys)
      ensures record == if killed then old(record).(kills := old(record).kills + 1) else old(record)
    {
      killed := *;
      if killed {
        Dies();
      }
    }

    ghost method StoreNow(m: Message)
      requires Valid() && !sys.pc.Down? && m in sys.sent
      modifies this`sys
      ensures Valid() && EnvironmentMoved(old(sys), sys) && HasId(sys.stored, m)
    {
      if !HasId(sys.stored, m) {
        Take(Store(m));
        assert m in sys.stored;
      }
    }

    // ----- The steps of the running code, each with its effect spelt out -----

    ghost method EndDelay()
      requires Valid() && sys.pc.Idle? && sys.needsDelay
      modifies this`sys
      ensures Valid() && sys == old(sys).(needsDelay := false)
    {
      Take(DelayOver);
    }

    ghost method FindNothingNew()
      requires Valid() && Selects(sys) && !unseen && !sys.paused
      modifies this`sys
      ensures Valid() && sys == old(sys).(needsDelay := true)
    {
      Take(NothingNew);
    }

    ghost method BeginsBatch(latest: nat)
      requires Valid() && Selects(sys) && !unseen && !sys.paused && sys.nextBlock <= latest
      modifies this`sys
      ensures Valid()
      ensures var last := LastBlock(cfg, old(sys), latest);
              sys == old(sys).(pc := Publishing(Span(cfg.canon, old(sys).nextBlock, last + 1), Batch(last, latest)))
    {
      Take(BeginBatch(latest));
    }

    ghost method Offers()
      requires Valid() && sys.pc.Publishing? && sys.pc.todo != [] && !Full(cfg, sys)
      modifies this`sys
      ensures Valid() && sys == old(sys).(pc := Offered(old(sys).pc.todo[0], old(sys).pc.todo[1..], old(sys).pc.batch))
    {
      Take(Offer);
    }

    ghost method Sends()
      requires Valid() && sys.pc.Offered? && conn.Connected?
      modifies this`sys
      ensures Valid() && sys == old(sys).(pc := InFlight(old(sys).pc.m, old(sys).pc.todo, old(sys).pc.batch),
          sent := old(sys).sent + {old(sys).pc.m})
    {
      Take(Send);
    }

    /** The message cannot be published now: it goes into the buffer. */
    ghost method GivesUp(step: Step)
      requires Valid() && ((sys.pc.InFlight? && step == NoAck) ||
          (sys.pc.Offered? && conn.Disconnected? && step == Send)) && !Full(cfg, sys)
      modifies this`sys
      ensures Valid() && sys == old(sys).(paused := true, clean := false,
          pc := Publishing(old(sys).pc.todo, old(sys).pc.batch), buffer := old(sys).buffer + [old(sys).pc.m])
    {
      Take(step);
    }

    ghost method TakesAck()
      requires Valid() && sys.pc.InFlight? && HasId(sys.stored, sys.pc.m)
      modifies this`sys
      ensures Valid() && sys == old(sys).(pc := Publishing(old(sys).pc.todo, old(sys).pc.batch),
          acked := old(sys).acked + {old(sys).pc.m})
    {
      Take(Ack);
    }

    ghost method EndsBatch()
      requires Valid() && sys.pc.Publishing? && sys.pc.todo == []
      modifies this`sys
      ensures Valid()
      ensures var Batch(last, latest) := old(sys).pc.batch;
              var advanced := last >= old(sys).nextBlock;
              sys == old(sys).(
                pc := Idle, needsDelay := latest - last <= 1,
                nextBlock := if advanced then last + 1 else old(sys).nextBlock,
                cursor := if advanced && old(sys).buffer == [] then Max(old(sys).cursor, last) else old(sys).cursor)
    {
      Take(EndBatch);
    }

    ghost method Cancels()
      requires Valid() && Awaits(cfg, sys)
      modifies this`sys
      ensures Valid() && sys == old(sys).(pc := Preempted)
    {
      Take(Cancel);
    }

    /** `changed()` completes: the change is marked as seen. */
    method SeeChange()
      requires Valid() && (Selects(sys) || sys.pc.Preempted?) && unseen
      modifies this`unseen, this`sys
      ensures Valid() && sys == old(sys).(pc := Changed, unseen := false)
    {
      unseen := false;
      Take(StateChange);
    }

    ghost method HandlesChange()
      requires Valid() && sys.pc.Changed?
      modifies this`sys
      ensures Valid() && sys == if conn.Connected? then old(sys).(pc := Draining(OnChange))
          else old(sys).(paused := true, pc := Settling(true))
    {
      Take(HandleChange);
    }

    ghost method Drains()
      requires Valid() && sys.pc.Draining?
      modifies this`sys
      ensures Valid() && sys == if old(sys).buffer == [] then old(sys).(pc := Flushed(old(sys).pc.flusher, true))
                             else old(sys).(
                               pc := Flushing(old(sys).pc.flusher, old(sys).buffer), buffer := [],
                               sent := old(sys).sent + {old(sys).buffer[0]})
    {
      Take(Drain);
    }

    ghost method TakesFlushAck()
      requires Valid() && sys.pc.Flushing? && sys.pc.todo != [] && HasId(sys.stored, sys.pc.todo[0])
      modifies this`sys
      ensures Valid()
      ensures var flusher, todo := old(sys).pc.flusher, old(sys).pc.todo[1..];
              sys == old(sys).(
                acked := old(sys).acked + {old(sys).pc.todo[0]},
                sent := if todo == [] then old(sys).sent else old(sys).sent + {todo[0]},
                pc := if todo == [] then Flushed(flusher, true) else Flushing(flusher, todo))
    {
      Take(FlushAck);
    }

    ghost method FlushFails()
      requires Valid() && sys.pc.Flushing?
      modifies this`sys
      ensures Valid() && sys == old(sys).(buffer := old(sys).pc.todo + old(sys).buffer, clean := false,
          pc := Flushed(old(sys).pc.flusher, false))
    {
      Take(FlushNoAck);
    }

    ghost method Resumes()
      requires Valid() && sys.pc.Flushed?
      modifies this`sys
      ensures Valid() && sys == if old(sys).pc.flusher.OnChange? || old(sys).pc.ok
          then old(sys).(paused := false, pc := Settling(true)) else old(sys).(pc := Settling(false))
    {
      Take(Resume);
    }

    ghost method Settles()
      requires Valid() && sys.pc.Settling?
      modifies this`sys
      ensures var catchUp := old(sys).pc.catchUp && old(sys).buffer == [] && old(sys).nextBlock > 0;
              Valid() && sys == old(sys).(
                pc := Idle,
                cursor := if catchUp then Max(old(sys).cursor, old(sys).nextBlock - 1) else old(sys).cursor)
    {
      Take(Settle);
    }

    ghost method BeginsPersist(persister: Persister)
      requires Valid() && (sys.pc.Idle? || sys.pc.Preempted?)
      requires persister.Periodic? ==> (Selects(sys) || sys.pc.Preempted?) && !unseen
      modifies this`sys
      ensures Valid() && sys == old(sys).(pc := Persisting(persister, old(sys).cursor))
    {
      Take(if persister.Periodic? then Tick else Shutdown);
    }

    /** The persist is over, or dropped; `disk` is what has become of the state file. */
    method EndsPersist(persister: Persister, ghost disk: seq<Option<nat>>)
      requires Valid() && sys.pc.Persisting? && sys.pc.persister == persister && sys.disk != []
      requires disk == sys.disk || disk == sys.disk + [Some(sys.pc.value)] || disk == [Some(sys.pc.value)]
      modifies this`conn, this`unseen, this`sys
      ensures Valid() && sys == AfterPersist(old(sys).(disk := disk), persister)
    {
      if persister.Final? {
        conn, unseen := Disconnected, false;
      }
      if disk == sys.disk {
        Take(PersistFailed);
      } else {
        Take(Rename);
        Take(SyncDirectory(disk == [Some(sys.disk[|sys.disk| - 1].value)]));
      }
    }

    /** The process is killed. */
    method Dies()
      requires Valid() && !sys.pc.Down?
      modifies this`conn, this`unseen, this`sys, this`record
      ensures Valid() && sys == Stop(old(sys)) && record == old(record).(kills := old(record).kills + 1)
    {
      conn, unseen := Disconnected, false;
      Take(Kill);
      record := record.(kills := record.kills + 1);
    }

    /** A power loss leaves one of the versions of the state file that were not yet superseded durably. */
    method LosesPower(ghost version: nat)
      requires Valid() && version < |sys.disk|
      modifies this`conn, this`unseen, this`sys
      ensures Valid() && sys == Stop(old(sys)).(disk := [old(sys).disk[version]])
    {
      conn, unseen := Disconnected, false;
      Take(PowerLoss(version));
    }

    method Starts()
      requires Valid() && Enabled(cfg, sys, Start)
      modifies this`conn, this`unseen, this`sys
      ensures Valid() && old(sys).disk != [] && sys == Load(cfg, old(sys))
    {
      conn, unseen := Disconnected, false;
      Take(Start);
    }

    ghost method TriesToResume()
      requires Valid() && sys.pc.Resuming?
      modifies this`sys
      ensures Valid() && sys == if conn.Connected? && old(sys).buffer != [] then old(sys).(pc := Draining(OnTick))
          else old(sys).(pc := Idle)
    {
      Take(TryResume);
    }
  }
}
