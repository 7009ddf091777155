/** The bounded FIFO buffer for messages that could not be published. */
module Buffer {
  import opened Wrappers
  import opened Events

  const MAX_CAPACITY: nat := 1000

  datatype NatsError = BufferFull(capacity: nat) | PublishFailed

  class MessageBuffer {
    var buffer: seq<TransactionMessage>
    const capacity: nat

    constructor (configured: nat)
      ensures buffer == [] && capacity == Min(configured, MAX_CAPACITY) && fresh(this)
    {
      capacity := Min(configured, MAX_CAPACITY);
      buffer := [];
    }

    predicate IsFull()
      reads this
    {
      |buffer| >= capacity
    }

    /** Rejects the message, and says so, exactly when the buffer is full. */
    method Push(message: TransactionMessage) returns (r: Result<(), NatsError>)
      modifies this
      ensures |old(buffer)| >= capacity ==> r == Err(BufferFull(capacity)) && buffer == old(buffer)
      ensures |old(buffer)| < capacity ==> r == Ok(()) && buffer == old(buffer) + [message]
    {
      if |buffer| >= capacity {
        return Err(BufferFull(capacity));
      }
      buffer := buffer + [message];
      return Ok(());
    }

    /** Takes the oldest message. */
    method Pop() returns (r: Option<TransactionMessage>)
      modifies this
      ensures r.None? <==> old(buffer) == []
      ensures r.None? ==> buffer == []
      ensures r.Some? ==> [r.value] + buffer == old(buffer)
    {
      if buffer == [] {
        return None;
      }
      r := Some(buffer[0]);
      buffer := buffer[1..];
    }

    /** Bypasses the capacity check: the message was buffered before. */
    method PushFront(message: TransactionMessage)
      modifies this
      ensures buffer == [message] + old(buffer)
    {
      buffer := [message] + buffer;
    }

    /** Pushes the messages to the front one by one, last one first, so that they end up in their order. */
    method ExtendFront(messages: seq<TransactionMessage>)
      modifies this
      ensures buffer == messages + old(buffer)
    {
      var i := |messages|;
      while i > 0
        invariant 0 <= i <= |messages|
        invariant buffer == messages[i..] + old(buffer)
      {
        i := i - 1;
        PushFront(messages[i]);
        assert messages[i..] == [messages[i]] + messages[i + 1..];
      }
    }

    /** Hands out everything and leaves the buffer empty. */
    method Drain() returns (messages: seq<TransactionMessage>)
      modifies this
      ensures messages == old(buffer) && buffer == []
    {
      messages := buffer;
      buffer := [];
    }
  }
}
