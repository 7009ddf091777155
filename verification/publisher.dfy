/** The publisher: immediate publishing, buffering on failure, and the flush that re-buffers what it could not send. */
module Publishing {
  import opened Wrappers
  import opened Protocol
  import opened Safety
  import opened Buffer
  import opened Outside

  /** What became of a call of `publish`: it returned, or branch 4 was dropped while it waited. */
  datatype Published = Returned(result: Result<(), NatsError>) | Dropped

  /** Fields of the run that the publisher never touches. */
  ghost predicate SameProgress(s: State, t: State) {
    && t.nextBlock == s.nextBlock && t.cursor == s.cursor && t.needsDelay == s.needsDelay
    && t.disk == s.disk && t.start == s.start && t.rejected == s.rejected && t.loads == s.loads && t.runs == s.runs
  }

  /**
   A flush of `before` that leaves `after`: what the network acknowledged followed by what is buffered
   afterwards is what was buffered before, and the flush has stopped only at a message that was refused.
   */
  ghost predicate Flushes(a: Record, b: Record, before: seq<Message>, after: seq<Message>) {
    && b.log + after == a.log + before
    && b == a.(log := b.log, refused := if after == [] then a.refused else a.refused + [after[0]])
  }

  lemma TakeAndDrop(before: seq<Message>, messages: seq<Message>, index: nat)
    requires index <= |messages|
    ensures before + messages[..index] + messages[index..] == before + messages
  {
    assert messages[..index] + messages[index..] == messages;
  }

  lemma TakeOneMore(before: seq<Message>, messages: seq<Message>, index: nat)
    requires index < |messages|
    ensures before + messages[..index] + [messages[index]] == before + messages[..index + 1]
  {
    assert messages[..index + 1] == messages[..index] + [messages[index]];
  }

  class Publisher {
    const world: World
    const buffer: MessageBuffer
    var paused: bool // the pause channel

    constructor (world: World, buffer: MessageBuffer)
      ensures this.world == world && this.buffer == buffer && !paused && fresh(this)
    {
      this.world := world;
      this.buffer := buffer;
      paused := false;
    }

    /** The buffer and the pause flag are those of the protocol state. */
    ghost predicate Valid()
      reads this, world, buffer
    {
      && world.Valid() && !world.sys.pc.Down?
      && world.sys.buffer == buffer.buffer && world.sys.paused == paused && world.cfg.capacity == buffer.capacity
    }

    /** Pauses the reader and buffers the message whose publishing has just failed or was not possible. */
    method PauseAndBuffer(message: Message, ghost step: Step) returns (r: Result<(), NatsError>)
      requires Valid() && !buffer.IsFull()
      requires (world.sys.pc.InFlight? && step == NoAck) ||
          (world.sys.pc.Offered? && step == Step.Send && world.conn.Disconnected?)
      requires world.sys.pc.m == message
      modifies this, world`sys, buffer
      ensures Valid() && SameProgress(old(world.sys), world.sys) && r.Ok?
      ensures world.sys.pc == Protocol.Publishing(old(world.sys.pc.todo), old(world.sys.pc.batch))
      ensures buffer.buffer == old(buffer.buffer) + [message] && paused
    {
      world.GivesUp(step);
      paused := true;
      r := buffer.Push(message);
    }

    /** `do_publish` for the message of branch 4, which may be dropped while waiting for the acknowledgement. */
    method Send(message: Message) returns (outcome: Option<bool>)
      requires Valid() && world.sys.pc.Offered? && world.sys.pc.m == message && world.conn.Connected?
      modifies world
      ensures Valid() && SameProgress(old(world.sys), world.sys)
      ensures world.sys.pc == InFlight(message, old(world.sys.pc.todo), old(world.sys.pc.batch))
      ensures outcome == Some(true) ==> HasId(world.sys.stored, message)
      ensures world.record == match outcome
        case None => CutShort(old(world.record))
        case Some(ok) => if ok then Acknowledged(old(world.record), message) else Refused(old(world.record), message)
    {
      world.Sends();
      world.Await();
      var cut := world.MayCut();
      if cut {
        return None;
      }
      var ok := world.DoPublish(message);
      return Some(ok);
    }

    /** The message has gone into the buffer, and the reader is paused. */
    twostate predicate Buffered(message: Message)
      reads this, buffer
    {
      buffer.buffer == old(buffer.buffer) + [message] && paused
    }

    twostate predicate Untouched()
      reads this, buffer
    {
      buffer.buffer == old(buffer.buffer) && paused == old(paused)
    }

    /**
     Disconnected, the message is buffered and the reader paused. Connected, it is sent: acknowledged, it is
     done; refused, it is buffered and the reader paused; dropped while waiting, nothing is touched. The message
     is never rejected, because the main loop has waited for room.
     */
    method Publish(message: Message) returns (r: Published)
      requires Valid() && world.sys.pc.Offered? && world.sys.pc.m == message
      modifies this, world, buffer
      ensures Valid() && SameProgress(old(world.sys), world.sys)
      ensures r.Returned? ==>
        r.result.Ok? && world.sys.pc == Protocol.Publishing(old(world.sys.pc.todo), old(world.sys.pc.batch))
      ensures r.Dropped? ==> world.sys.pc.InFlight?
      ensures old(world.conn).Disconnected? ==>
        r.Returned? && world.record == old(world.record) && Buffered(message)
      ensures old(world.conn).Connected? ==>
        || (r.Returned? && world.record == Acknowledged(old(world.record), message) && Untouched())
        || (r.Returned? && world.record == Refused(old(world.record), message) && Buffered(message))
        || (r.Dropped? && world.record == CutShort(old(world.record)) && Untouched())
    {
      assert !buffer.IsFull() by {
        ReachableInv(world.cfg, world.sys);
      }
      match world.conn {
        case Connected =>
          var outcome := Send(message);
          match outcome {
            case None => return Dropped;
            case Some(true) =>
              world.TakesAck();
              return Returned(Ok(()));
            case Some(false) =>
              var result := PauseAndBuffer(message, NoAck);
              return Returned(result);
          }
        case Disconnected =>
          var result := PauseAndBuffer(message, Step.Send);
          return Returned(result);
      }
    }

    /** The drained messages from `index` on are still to be published. */
    ghost predicate InFlush(flusher: Flusher, messages: seq<Message>, index: nat)
      reads this, world, buffer
    {
      && Valid() && buffer.buffer == [] && index <= |messages|
      && world.sys.pc == if index < |messages| then Flushing(flusher, messages[index..]) else Flushed(flusher, true)
    }

    /** The process was killed on the way; what it had published since `before` is a prefix of `messages`. */
    ghost predicate Ended(disk: seq<Option<nat>>, before: Record, messages: seq<Message>)
      reads world
    {
      && world.Valid() && world.sys.pc.Down? && world.sys.disk == disk
      && before.log <= world.record.log <= before.log + messages
      && world.record == before.(log := world.record.log, kills := before.kills + 1)
    }

    /** One round of the flush: publish a message, or put it and the rest back; None if the process is killed. */
    method FlushOne(ghost flusher: Flusher, messages: seq<Message>, index: nat) returns (ok: Option<bool>)
      requires index < |messages| && InFlush(flusher, messages, index)
      modifies world, buffer
      ensures ok.None? ==> Ended(old(world.sys.disk), old(world.record), [])
      ensures ok.Some? ==> Valid() && SameProgress(old(world.sys), world.sys)
      ensures ok == Some(true) ==>
        InFlush(flusher, messages, index + 1) && world.record == Acknowledged(old(world.record), messages[index])
      ensures ok == Some(false) ==>
        buffer.buffer == messages[index..] && world.record == Refused(old(world.record), messages[index]) &&
            world.sys.pc == Flushed(flusher, false)
    {
      assert messages[index] in world.sys.sent by {
        ReachableInv(world.cfg, world.sys);
      }
      world.Await();
      var killed := world.MayDie();
      if killed {
        return None;
      }
      var published := world.DoPublish(messages[index]);
      if published {
        world.TakesFlushAck();
        assert messages[index..][1..] == messages[index + 1..];
      } else {
        world.FlushFails();
        buffer.ExtendFront(messages[index..]);
      }
      return Some(published);
    }

    /** The flush has come to its end with this result. */
    ghost predicate FlushedWith(flusher: Flusher, messages: seq<Message>, r: Result<nat, NatsError>)
      reads this, world, buffer
    {
      && Valid() && world.sys.pc == Flushed(flusher, r.Ok?)
      && (if r.Ok? then buffer.buffer == [] && r.value == |messages| else buffer.buffer != [])
    }

    /** The loop of `flush_buffer` over the drained messages; None if the process ends in it. */
    method FlushMessages(ghost flusher: Flusher, messages: seq<Message>) returns (r: Option<Result<nat, NatsError>>)
      requires messages != [] && InFlush(flusher, messages, 0)
      modifies world, buffer
      ensures r.None? ==> Ended(old(world.sys.disk), old(world.record), messages)
      ensures r.Some? ==> FlushedWith(flusher, messages, r.value) && SameProgress(old(world.sys), world.sys)
      ensures r.Some? ==> Flushes(old(world.record), world.record, messages, buffer.buffer)
    {
      var published := 0;
      ghost var before := world.record;
      for index := 0 to |messages|
        invariant InFlush(flusher, messages, index) && SameProgress(old(world.sys), world.sys)
        invariant world.record == before.(log := before.log + messages[..index]) && published == index
      {
        var ok := FlushOne(flusher, messages, index);
        if ok.None? {
          TakeAndDrop(before.log, messages, index);
          return None;
        }
        if !ok.value {
          TakeAndDrop(before.log, messages, index);
          return Some(Err(PublishFailed));
        }
        TakeOneMore(before.log, messages, index);
        published := published + 1;
      }
      assert messages[..|messages|] == messages;
      return Some(Ok(published));
    }

    /**
     Publishes the buffer in FIFO order until a message is refused: that one and all after it are buffered
     again. None if the process is killed in it.
     */
    method FlushBuffer(ghost flusher: Flusher) returns (r: Option<Result<nat, NatsError>>)
      requires Valid() && world.sys.pc == Draining(flusher)
      modifies world, buffer
      ensures r.None? ==> Ended(old(world.sys.disk), old(world.record), old(buffer.buffer))
      ensures r.Some? ==> FlushedWith(flusher, old(buffer.buffer), r.value) && SameProgress(old(world.sys), world.sys)
      ensures r.Some? ==> Flushes(old(world.record), world.record, old(buffer.buffer), buffer.buffer)
    {
      world.Drains();
      if buffer.buffer == [] {
        return Some(Ok(0));
      }
      var messages := buffer.Drain();
      assert messages[0..] == messages;
      r := FlushMessages(flusher, messages);
    }

    /**
     Connected: flush, and resume the reader even when the flush failed. Disconnected: pause the reader.
     Returns false if the process is killed in the flush.
     */
    method HandleStateChange() returns (alive: bool)
      requires Valid() && world.sys.pc.Changed?
      modifies this, world, buffer
      ensures !alive ==> Ended(old(world.sys.disk), old(world.record), old(buffer.buffer)) && paused == old(paused)
      ensures alive ==> Valid() && SameProgress(old(world.sys), world.sys) && world.sys.pc == Settling(true)
      ensures alive ==> (paused <==> old(world.conn).Disconnected?)
      ensures old(world.conn).Connected? && alive ==>
        Flushes(old(world.record), world.record, old(buffer.buffer), buffer.buffer)
      ensures old(world.conn).Disconnected? ==>
        alive && world.record == old(world.record) && buffer.buffer == old(buffer.buffer)
    {
      var state := world.conn;
      world.HandlesChange();
      match state {
        case Connected =>
          var flushed := FlushBuffer(OnChange);
          if flushed.None? {
            return false;
          }
          world.Resumes();
          paused := false;
        case Disconnected =>
          paused := true;
      }
      return true;
    }

    /** The tick's flush of a non-empty buffer: it resumes the reader only when everything has gone out. */
    method FlushAndResume() returns (r: Option<Result<bool, NatsError>>)
      requires Valid() && world.sys.pc == Draining(OnTick)
      modifies this, world, buffer
      ensures r.None? ==> Ended(old(world.sys.disk), old(world.record), old(buffer.buffer)) && paused == old(paused)
      ensures r.Some? ==> Valid() && SameProgress(old(world.sys), world.sys)
      ensures r.Some? ==> Flushes(old(world.record), world.record, old(buffer.buffer), buffer.buffer)
      ensures r.Some? && r.value.Ok? ==>
          r.value.value && buffer.buffer == [] && !paused && world.sys.pc == Settling(true)
      ensures r.Some? && r.value.Err? ==>
          buffer.buffer != [] && paused == old(paused) && world.sys.pc == Settling(false)
    {
      var flushed := FlushBuffer(OnTick);
      if flushed.None? {
        return None;
      }
      world.Resumes();
      match flushed.value {
        case Ok(_) =>
          paused := false;
          return Some(Ok(true));
        case Err(e) =>
          return Some(Err(e));
      }
    }

    /**
     The periodic attempt: Ok(true) when a non-empty buffer was fully drained and the reader resumed,
     Ok(false) when there was nothing to do or no connection, an error when the flush failed. None if the
     process ends in the flush.
     */
    method TryResumeIfConnected() returns (r: Option<Result<bool, NatsError>>)
      requires Valid() && world.sys.pc.Resuming?
      modifies this, world, buffer
      ensures r.None? ==> Ended(old(world.sys.disk), old(world.record), old(buffer.buffer)) && paused == old(paused)
      ensures r.Some? ==> Valid() && SameProgress(old(world.sys), world.sys)
      ensures r == Some(Ok(false)) <==> old(world.conn).Disconnected? || old(buffer.buffer) == []
      ensures r == Some(Ok(true)) ==> buffer.buffer == [] && !paused && world.sys.pc == Settling(true)
      ensures r == Some(Ok(false)) ==>
          Untouched() && world.sys.pc.Idle? && world.record == old(world.record) && world.conn == old(world.conn)
      ensures r.Some? && r.value != Ok(false) ==>
          Flushes(old(world.record), world.record, old(buffer.buffer), buffer.buffer)
      ensures r.Some? && r.value.Err? ==>
          buffer.buffer != [] && paused == old(paused) && world.sys.pc == Settling(false)
    {
      var state := world.conn;
      world.TriesToResume();
      if state != Connected || buffer.buffer == [] {
        return Some(Ok(false));
      }
      r := FlushAndResume();
    }
  }
}
