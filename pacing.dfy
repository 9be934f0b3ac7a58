/** The Transform streams of src/events/assemblyai_stt.ts: slicing a buffer
    into chunks of at most chunkSize bytes, pacing pushes at least
    sendInterval apart with a lastSendTime that persists across buffers, and
    the pass-through monitor.

    Time is an abstract clock: each event method receives `now`, the value
    Date.now() returns when it runs, which never decreases; a timer set for a
    delay fires at a time no earlier than its due time. */
module Pacing {
  import opened Wrappers
  import opened Bytes

  function Min(a: nat, b: nat): (m: nat)
    ensures m <= a && m <= b && (m == a || m == b)
  {
    if a <= b then a else b
  }

  // ---------------------------------------------------------------------------
  // Slicing (processChunk's offset arithmetic)

  /** The slices processChunk pushes for one buffer: each is
      data.subarray(offset, offset + min(chunkSize, remaining)). */
  function Slices(data: seq<Byte>, size: nat): seq<seq<Byte>>
    requires size > 0
    decreases |data|
  {
    if |data| == 0 then []
    else
      var n := Min(size, |data|);
      [data[..n]] + Slices(data[n..], size)
  }

  function Concat(ss: seq<seq<Byte>>): seq<Byte>
  {
    if ss == [] then [] else ss[0] + Concat(ss[1..])
  }

  lemma {:induction false} ConcatAppend(a: seq<seq<Byte>>, b: seq<seq<Byte>>)
    ensures Concat(a + b) == Concat(a) + Concat(b)
  {
    if a == [] {
      assert a + b == b;
    } else {
      assert (a + b)[1..] == a[1..] + b;
      ConcatAppend(a[1..], b);
    }
  }

  /** The slices of a buffer, concatenated in push order, are the buffer. */
  lemma {:induction false} SlicesConcat(data: seq<Byte>, size: nat)
    requires size > 0
    ensures Concat(Slices(data, size)) == data
    decreases |data|
  {
    if |data| > 0 {
      var n := Min(size, |data|);
      SlicesConcat(data[n..], size);
      assert data[..n] + data[n..] == data;
    }
  }

  /** Every slice but the last holds exactly chunkSize bytes and the last
      holds between 1 and chunkSize, so there are ceil(|data| / chunkSize) of
      them; an empty buffer has no slices. */
  lemma {:induction false} SlicesSizes(data: seq<Byte>, size: nat)
    requires size > 0
    ensures var ss := Slices(data, size);
      && (|ss| == 0 <==> |data| == 0)
      && (forall i :: 0 <= i < |ss| - 1 ==> |ss[i]| == size)
      && (|ss| > 0 ==> 0 < |ss[|ss| - 1]| <= size && |data| == (|ss| - 1) * size + |ss[|ss| - 1]|)
  {
    SlicesFull(data, size);
    SlicesLast(data, size);
  }

  /** Every slice but the last is full. */
  lemma {:induction false} SlicesFull(data: seq<Byte>, size: nat)
    requires size > 0
    ensures forall i :: 0 <= i < |Slices(data, size)| - 1 ==> |Slices(data, size)[i]| == size
    decreases |data|
  {
    if |data| > 0 {
      var n := Min(size, |data|);
      var rest := Slices(data[n..], size);
      var ss := Slices(data, size);
      SlicesFull(data[n..], size);
      assert ss == [data[..n]] + rest;
      forall i | 0 <= i < |ss| - 1
        ensures |ss[i]| == size
      {
        if i > 0 {
          assert ss[i] == rest[i - 1];
        } else {
          assert |data[n..]| > 0;
          assert n == size;
          assert ss[0] == data[..n];
        }
      }
    }
  }

  /** There are slices exactly when there are bytes; the last holds between 1
      and chunkSize bytes and the full ones before it account for the rest. */
  lemma {:induction false} SlicesLast(data: seq<Byte>, size: nat)
    requires size > 0
    ensures var ss := Slices(data, size);
      && (|ss| == 0 <==> |data| == 0)
      && (|ss| > 0 ==> 0 < |ss[|ss| - 1]| <= size && |data| == (|ss| - 1) * size + |ss[|ss| - 1]|)
    decreases |data|
  {
    if |data| > 0 {
      var n := Min(size, |data|);
      var rest := Slices(data[n..], size);
      var ss := Slices(data, size);
      SlicesLast(data[n..], size);
      assert ss == [data[..n]] + rest;
      if |rest| > 0 {
        var r := |rest|;
        assert n == size;
        assert ss[|ss| - 1] == rest[r - 1];
        assert |data| == size + (r - 1) * size + |rest[r - 1]|;
        MulSucc(r - 1, size);
      }
    }
  }

  lemma MulSucc(r: int, size: int)
    ensures (r + 1) * size == r * size + size
  {
  }

  /** 25 bytes sliced by 10 give slices of 10, 10 and 5 bytes. */
  lemma SlicesExample(data: seq<Byte>)
    requires |data| == 25
    ensures |Slices(data, 10)| == 3
    ensures |Slices(data, 10)[0]| == 10 && |Slices(data, 10)[1]| == 10 && |Slices(data, 10)[2]| == 5
  {
    SlicesSizes(data, 10);
  }

  /** One step of processChunk: the slices still to push from `offset` are the
      slice at `offset` followed by the slices from the next offset. */
  lemma SlicesStep(data: seq<Byte>, size: nat, offset: nat)
    requires size > 0 && offset < |data|
    ensures var n := Min(size, |data| - offset);
      Slices(data[offset..], size) == [data[offset..offset + n]] + Slices(data[offset + n..], size)
  {
    var n := Min(size, |data| - offset);
    assert data[offset..][..n] == data[offset..offset + n];
    assert data[offset..][n..] == data[offset + n..];
  }

  // ---------------------------------------------------------------------------
  // Push logs and the pacing rule

  /** Push times are at least `interval` apart, and the first is no earlier
      than `interval` after time 0, the initial lastSendTime. */
  ghost predicate Paced(times: seq<int>, interval: int)
  {
    && (|times| > 0 ==> times[0] >= interval)
    && (forall i :: 0 < i < |times| ==> times[i] >= times[i - 1] + interval)
  }

  /** lastSendTime is the time of the latest push, or 0 before any push. */
  ghost predicate TracksLast(times: seq<int>, lastSendTime: int)
  {
    lastSendTime == if times == [] then 0 else times[|times| - 1]
  }

  /** A push made once the interval since lastSendTime has elapsed keeps the
      log paced. */
  lemma PacedSnoc(times: seq<int>, interval: int, last: int, t: int)
    requires Paced(times, interval) && TracksLast(times, last)
    requires t - last >= interval
    ensures Paced(times + [t], interval) && TracksLast(times + [t], t)
  {
  }

  lemma ConcatSnoc(ss: seq<seq<Byte>>, s: seq<Byte>)
    ensures Concat(ss + [s]) == Concat(ss) + s
  {
    ConcatAppend(ss, [s]);
    assert Concat([s]) == s + Concat([]);
  }

  /** The pushes since `mark` followed by the slices still to push from
      `offset` are the buffer's slices, and all bytes pushed followed by the
      unpushed rest of the buffer are the bytes received. */
  ghost predicate Accounts(pushed: seq<seq<Byte>>, mark: nat, data: seq<Byte>, offset: nat, size: nat, received: seq<Byte>)
  {
    && size > 0
    && offset <= |data|
    && mark <= |pushed|
    && pushed[mark..] + Slices(data[offset..], size) == Slices(data, size)
    && Concat(pushed) + data[offset..] == received
  }

  /** Pushing the next slice moves it from the slices still to push to the
      slices pushed. */
  lemma SliceMoves(done: seq<seq<Byte>>, data: seq<Byte>, offset: nat, size: nat)
    requires size > 0 && offset < |data|
    ensures var n := Min(size, |data| - offset);
      done + Slices(data[offset..], size) == (done + [data[offset..offset + n]]) + Slices(data[offset + n..], size)
  {
    SlicesStep(data, size, offset);
  }

  /** Pushing the next slice moves its bytes from the unpushed rest to the
      bytes pushed. */
  lemma BytesMove(pushed: seq<seq<Byte>>, data: seq<Byte>, offset: nat, n: nat)
    requires offset + n <= |data|
    ensures Concat(pushed) + data[offset..] == Concat(pushed + [data[offset..offset + n]]) + data[offset + n..]
  {
    ConcatSnoc(pushed, data[offset..offset + n]);
    assert data[offset..] == data[offset..offset + n] + data[offset + n..];
  }

  /** Pushing the next slice keeps the account. */
  lemma AccountsStep(pushed: seq<seq<Byte>>, mark: nat, data: seq<Byte>, offset: nat, size: nat, received: seq<Byte>)
    requires Accounts(pushed, mark, data, offset, size, received) && offset < |data|
    ensures var n := Min(size, |data| - offset);
      Accounts(pushed + [data[offset..offset + n]], mark, data, offset + n, size, received)
  {
    var n := Min(size, |data| - offset);
    var slice := data[offset..offset + n];
    SliceMoves(pushed[mark..], data, offset, size);
    BytesMove(pushed, data, offset, n);
    assert (pushed + [slice])[mark..] == pushed[mark..] + [slice];
  }

  /** A new buffer starts a fresh account at the current end of the pushes. */
  lemma AccountsStart(pushed: seq<seq<Byte>>, data: seq<Byte>, size: nat, received: seq<Byte>)
    requires size > 0 && Concat(pushed) == received
    ensures Accounts(pushed, |pushed|, data, 0, size, received + data)
  {
    assert pushed[|pushed|..] == [];
    assert data[0..] == data;
  }

  /** A finished account: the pushes since `mark` are the buffer's slices. */
  lemma AccountsDone(pushed: seq<seq<Byte>>, mark: nat, data: seq<Byte>, size: nat, received: seq<Byte>)
    requires Accounts(pushed, mark, data, |data|, size, received)
    ensures pushed[mark..] == Slices(data, size) && Concat(pushed) == received
  {
    assert data[|data|..] == [];
    assert pushed[mark..] + [] == pushed[mark..];
    assert Concat(pushed) + [] == Concat(pushed);
  }

  // ---------------------------------------------------------------------------
  // createChunkAndThrottleStream

  class ChunkAndThrottleStream {
    const chunkSize: nat
    const sendInterval: int
    /** The closure variable shared by every transform call. */
    var lastSendTime: int
    /** The latest Date.now() reading. */
    var clock: int
    /** The chunks pushed downstream, in order, and the time of each push. */
    var pushed: seq<seq<Byte>>
    var sendTimes: seq<int>
    /** How many times a transform call has invoked its callback. */
    var callbacks: nat
    /** The transform call in progress: its buffer and processChunk's offset. */
    var busy: bool
    var data: seq<Byte>
    var offset: nat
    /** The due time of the pending setTimeout, if one is pending. */
    var timerDue: Option<int>
    /** |pushed| when the current (or last) transform call began. */
    ghost var mark: nat
    /** Every byte handed to transform so far. */
    ghost var received: seq<Byte>

    /** What holds at every point, also between pushes of one processChunk
        run: the pushes account for the slices and for the bytes received,
        pushes are paced, and lastSendTime is the latest push time. */
    ghost predicate Core()
      reads this
    {
      && Accounts(pushed, mark, data, offset, chunkSize, received)
      && (!busy ==> offset == |data|)
      && |sendTimes| == |pushed|
      && Paced(sendTimes, sendInterval)
      && TracksLast(sendTimes, lastSendTime)
      && lastSendTime <= clock
    }

    /** Between events: a transform call is in progress exactly when a timer
        is pending, due sendInterval after the latest push, with bytes left. */
    ghost predicate Valid()
      reads this
    {
      && Core()
      && (busy <==> timerDue.Some?)
      && (timerDue.Some? ==> timerDue.value == lastSendTime + sendInterval && offset < |data|)
    }

    constructor (chunkSize: nat, sendInterval: int)
      requires chunkSize > 0
      ensures Valid()
      ensures this.chunkSize == chunkSize && this.sendInterval == sendInterval
      ensures lastSendTime == 0 && clock == 0 && pushed == [] && callbacks == 0 && !busy && received == []
    {
      this.chunkSize := chunkSize;
      this.sendInterval := sendInterval;
      lastSendTime := 0;
      clock := 0;
      pushed := [];
      sendTimes := [];
      callbacks := 0;
      busy := false;
      data := [];
      offset := 0;
      timerDue := None;
      mark := 0;
      received := [];
    }

    /** Push the slice at `offset` at time `now` and advance. */
    method PushSlice(now: int)
      requires Core() && busy && offset < |data| && now >= clock
      requires now - lastSendTime >= sendInterval
      modifies this
      ensures Core() && busy && timerDue == old(timerDue)
      ensures var n := Min(chunkSize, |old(data)| - old(offset));
        && pushed == old(pushed) + [old(data)[old(offset)..old(offset) + n]]
        && offset == old(offset) + n
      ensures sendTimes == old(sendTimes) + [now] && lastSendTime == now && clock == now
      ensures data == old(data) && callbacks == old(callbacks) && mark == old(mark) && received == old(received)
    {
      var n := Min(chunkSize, |data| - offset);
      AccountsStep(pushed, mark, data, offset, chunkSize, received);
      PacedSnoc(sendTimes, sendInterval, lastSendTime, now);
      pushed := pushed + [data[offset..offset + n]];
      sendTimes := sendTimes + [now];
      lastSendTime := now;
      clock := now;
      offset := offset + n;
    }

    /** The synchronous part of processChunk at time `now`, the clock the
        caller has just read: push while the interval has elapsed; then either
        invoke the callback (all pushed) or set a timer for the remaining
        delay. */
    method Run(now: int)
      requires Core() && busy && timerDue.None? && clock == now
      modifies this
      ensures Valid() && clock == now
      ensures old(pushed) <= pushed && old(sendTimes) <= sendTimes
      ensures forall i :: |old(sendTimes)| <= i < |sendTimes| ==> sendTimes[i] == now
      ensures callbacks == old(callbacks) + (if busy then 0 else 1)
      ensures data == old(data) && mark == old(mark) && received == old(received)
      ensures old(offset) < |data| && now - old(lastSendTime) >= sendInterval ==> |pushed| > |old(pushed)|
      ensures now - old(lastSendTime) < sendInterval ==> pushed == old(pushed) && sendTimes == old(sendTimes)
    {
      while offset < |data| && now - lastSendTime >= sendInterval
        invariant Core() && busy && timerDue.None? && clock == now
        invariant data == old(data) && mark == old(mark) && received == old(received)
        invariant callbacks == old(callbacks)
        invariant old(pushed) <= pushed && old(sendTimes) <= sendTimes
        invariant forall i :: |old(sendTimes)| <= i < |sendTimes| ==> sendTimes[i] == now
        invariant |pushed| == |old(pushed)| ==> lastSendTime == old(lastSendTime) && offset == old(offset)
        invariant |pushed| > |old(pushed)| ==> now - old(lastSendTime) >= sendInterval
        decreases |data| - offset
      {
        PushSlice(now);
      }
      if offset >= |data| {
        busy := false;
        callbacks := callbacks + 1;
      } else {
        timerDue := Some(lastSendTime + sendInterval);
      }
    }

    /** transform(chunk, encoding, callback): start processChunk at offset 0.
        An empty buffer pushes nothing and invokes the callback at once; once
        the callback has run, the pushes of this call are the chunk's slices. */
    method Transform(chunk: seq<Byte>, now: int)
      requires Valid() && !busy && now >= clock
      modifies this
      ensures Valid() && clock == now
      ensures old(pushed) <= pushed && old(sendTimes) <= sendTimes
      ensures forall i :: |old(sendTimes)| <= i < |sendTimes| ==> sendTimes[i] == now
      ensures received == old(received) + chunk && data == chunk && mark == |old(pushed)|
      ensures callbacks == old(callbacks) + (if busy then 0 else 1)
      ensures !busy ==> pushed[|old(pushed)|..] == Slices(chunk, chunkSize)
      ensures chunk == [] ==> !busy && pushed == old(pushed)
      ensures chunk != [] && now - old(lastSendTime) >= sendInterval ==> |pushed| > |old(pushed)|
      ensures chunk != [] && now - old(lastSendTime) < sendInterval ==>
        pushed == old(pushed) && busy && timerDue == Some(old(lastSendTime) + sendInterval)
    {
      Begin(chunk, now);
      if |chunk| == 0 {
        callbacks := callbacks + 1;
        AccountsDone(pushed, mark, data, chunkSize, received);
        return;
      }
      Run(now);
      if !busy {
        AccountsDone(pushed, mark, data, chunkSize, received);
      }
    }

    /** Open the account of a new buffer at processChunk's offset 0, at the
        time `now` the transform call reads. */
    method Begin(chunk: seq<Byte>, now: int)
      requires Valid() && !busy && now >= clock
      modifies this
      ensures Core() && busy == (chunk != []) && timerDue.None?
      ensures data == chunk && offset == 0 && mark == |pushed| && received == old(received) + chunk
      ensures pushed == old(pushed) && sendTimes == old(sendTimes) && lastSendTime == old(lastSendTime)
      ensures clock == now && callbacks == old(callbacks)
    {
      AccountsDone(pushed, mark, data, chunkSize, received);
      AccountsStart(pushed, chunk, chunkSize, received);
      data := chunk;
      offset := 0;
      mark := |pushed|;
      received := received + chunk;
      busy := chunk != [];
      clock := now;
    }

    /** The setTimeout callback: push the waiting slice at the time it fires,
        record that time as lastSendTime and continue processChunk. */
    method TimerFires(now: int)
      requires Valid() && timerDue.Some? && now >= timerDue.value && now >= clock
      modifies this
      ensures Valid() && clock == now
      ensures old(pushed) < pushed && old(sendTimes) < sendTimes
      ensures forall i :: |old(sendTimes)| <= i < |sendTimes| ==> sendTimes[i] == now
      ensures callbacks == old(callbacks) + (if busy then 0 else 1)
      ensures data == old(data) && mark == old(mark) && received == old(received)
      ensures !busy ==> pushed[mark..] == Slices(data, chunkSize)
    {
      timerDue := None;
      PushSlice(now);
      Run(now);
    }
  }

  // ---------------------------------------------------------------------------
  // createChunkStream

  class ChunkStream {
    const chunkSize: nat
    var pushed: seq<seq<Byte>>
    var callbacks: nat

    constructor (chunkSize: nat)
      requires chunkSize > 0
      ensures this.chunkSize == chunkSize && pushed == [] && callbacks == 0
    {
      this.chunkSize := chunkSize;
      pushed := [];
      callbacks := 0;
    }

    /** Push every slice of the chunk, in order, then invoke the callback once. */
    method Transform(chunk: seq<Byte>)
      requires chunkSize > 0
      modifies this
      ensures pushed == old(pushed) + Slices(chunk, chunkSize)
      ensures callbacks == old(callbacks) + 1
    {
      var offset := 0;
      while offset < |chunk|
        invariant offset <= |chunk|
        invariant pushed + Slices(chunk[offset..], chunkSize) == old(pushed) + Slices(chunk, chunkSize)
        invariant callbacks == old(callbacks)
        decreases |chunk| - offset
      {
        var n := Min(chunkSize, |chunk| - offset);
        var slice := chunk[offset..offset + n];
        SlicesStep(chunk, chunkSize, offset);
        assert pushed + Slices(chunk[offset..], chunkSize)
            == (pushed + [slice]) + Slices(chunk[offset + n..], chunkSize);
        pushed := pushed + [slice];
        offset := offset + n;
      }
      callbacks := callbacks + 1;
    }
  }

  // ---------------------------------------------------------------------------
  // createThrottleStream

  class ThrottleStream {
    const sendInterval: int
    var lastSendTime: int
    var clock: int
    var pushed: seq<seq<Byte>>
    var sendTimes: seq<int>
    var callbacks: nat
    /** The chunk waiting for its timer, and the timer's due time. */
    var pending: Option<seq<Byte>>
    var timerDue: Option<int>
    /** Every chunk handed to transform so far. */
    ghost var received: seq<seq<Byte>>

    /** Every chunk received is pushed unchanged and in order, paced like the
        chunk-and-throttle stream; at most one waits for its timer. */
    ghost predicate Valid()
      reads this
    {
      && (pending.Some? <==> timerDue.Some?)
      && (timerDue.Some? ==> timerDue.value == lastSendTime + sendInterval)
      && pushed + (if pending.Some? then [pending.value] else []) == received
      && |sendTimes| == |pushed|
      && Paced(sendTimes, sendInterval)
      && TracksLast(sendTimes, lastSendTime)
      && lastSendTime <= clock
    }

    constructor (sendInterval: int)
      ensures Valid() && this.sendInterval == sendInterval
      ensures lastSendTime == 0 && clock == 0 && pushed == [] && callbacks == 0 && pending.None? && received == []
    {
      this.sendInterval := sendInterval;
      lastSendTime := 0;
      clock := 0;
      pushed := [];
      sendTimes := [];
      callbacks := 0;
      pending := None;
      timerDue := None;
      received := [];
    }

    /** Push now if the interval has elapsed, otherwise wait for the rest of it. */
    method Transform(chunk: seq<Byte>, now: int)
      requires Valid() && pending.None? && now >= clock
      modifies this
      ensures Valid() && received == old(received) + [chunk] && clock == now
      ensures now - old(lastSendTime) >= sendInterval ==>
        && pushed == old(pushed) + [chunk] && sendTimes == old(sendTimes) + [now]
        && callbacks == old(callbacks) + 1 && pending.None?
      ensures now - old(lastSendTime) < sendInterval ==>
        && pushed == old(pushed) && sendTimes == old(sendTimes) && callbacks == old(callbacks)
        && pending == Some(chunk) && timerDue == Some(old(lastSendTime) + sendInterval)
    {
      clock := now;
      received := received + [chunk];
      if now - lastSendTime < sendInterval {
        pending := Some(chunk);
        timerDue := Some(lastSendTime + sendInterval);
      } else {
        PacedSnoc(sendTimes, sendInterval, lastSendTime, now);
        pushed := pushed + [chunk];
        sendTimes := sendTimes + [now];
        lastSendTime := now;
        callbacks := callbacks + 1;
      }
    }

    /** The timer pushes the waiting chunk and invokes the callback. */
    method TimerFires(now: int)
      requires Valid() && timerDue.Some? && now >= timerDue.value && now >= clock
      modifies this
      ensures Valid() && pending.None? && clock == now && lastSendTime == now
      ensures pushed == old(pushed) + [old(pending).value] && sendTimes == old(sendTimes) + [now]
      ensures callbacks == old(callbacks) + 1 && received == old(received)
    {
      PacedSnoc(sendTimes, sendInterval, lastSendTime, now);
      pushed := pushed + [pending.value];
      sendTimes := sendTimes + [now];
      lastSendTime := now;
      clock := now;
      pending := None;
      timerDue := None;
      callbacks := callbacks + 1;
    }
  }

  // ---------------------------------------------------------------------------
  // createMonitorStream

  class MonitorStream {
    const name: string
    var pushed: seq<seq<Byte>>
    var callbacks: nat

    constructor (name: string)
      ensures this.name == name && pushed == [] && callbacks == 0
    {
      this.name := name;
      pushed := [];
      callbacks := 0;
    }

    /** Log the chunk's size (not modelled) and push it unchanged. */
    method Transform(chunk: seq<Byte>)
      modifies this
      ensures pushed == old(pushed) + [chunk] && callbacks == old(callbacks) + 1
    {
      pushed := pushed + [chunk];
      callbacks := callbacks + 1;
    }
  }
}
