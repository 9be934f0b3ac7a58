/** AsrWsClient of src/events/vol_stt.ts as an object: the WebSocket's state,
    the frames written to it, the ready promise, and what the observer (a
    BehaviorSubject of utterance lists) has emitted. The socket's events
    (open, message, close, error) are methods the transport calls. */
module AsrClient {
  import opened Wrappers
  import opened Bytes
  import opened Protocol

  /** The socket as the client sees it; NotCreated when init threw while
      building the full client request, before dialling. */
  datatype SocketState = NotCreated | Connecting | Open | Closing | Closed

  /** The observer's state: emitting, completed, or failed with an error.
      A stopped subject ignores every later next, complete and error. */
  datatype StreamState = Active | Completed | Errored

  /** How a call to `execute` ends: the frame was written; `ws.send` threw
      because the socket was missing or still connecting; the socket was
      closing or closed and `ws` discarded the frame; or writeUInt32BE threw
      because the compressed chunk does not fit a 32-bit length. */
  datatype ExecuteOutcome = Sent | NotOpen | DroppedAfterClose | FrameTooLarge

  const AUDIO_HEADER: seq<Byte> := [0x11, 0x20, 0x11, 0x00]

  class AsrWsClient {
    const config: ClientConfig
    const reqid: string
    const fullClientRequest: Option<seq<Byte>>
    /** The HTTP headers the socket was opened with. */
    const headers: map<string, string>

    var socket: SocketState
    /** Frames written to the socket, in order. */
    var sent: seq<seq<Byte>>
    /** The value the ready promise (initPromise) resolved with, if it has. */
    var ready: Option<ParsedResponse>
    /** The lists passed to observer.next while it was active, in order. */
    var published: seq<seq<Utterance>>
    var stream: StreamState

    /** The socket exists exactly when the full client request could be built;
        it is the first frame written, every later frame is an audio-only
        request, and every frame's length field is the length of its payload. */
    ghost predicate Valid()
      reads this
    {
      && (fullClientRequest.None? <==> socket == NotCreated)
      && (fullClientRequest.Some? ==> WellFramed(fullClientRequest.value))
      && (socket == NotCreated || socket == Connecting ==> sent == [])
      && (socket == Open || socket == Closing ==> |sent| >= 1)
      && (ready.Some? ==> |sent| >= 1)
      && (|sent| >= 1 ==> fullClientRequest.Some? && sent[0] == fullClientRequest.value)
      && (forall i :: 0 <= i < |sent| ==> WellFramed(sent[i]))
      && (forall i :: 1 <= i < |sent| ==> sent[i][..4] == AUDIO_HEADER)
    }

    /** The constructor applies the option defaults, and init builds the full
        client request for a fresh reqid and dials with the auth headers. */
    constructor (cluster: string, options: AsrClientOptions, reqid: string, lib: Library)
      ensures Valid()
      ensures config == Configure(cluster, options) && this.reqid == reqid
      ensures fullClientRequest == FullClientRequest(config, reqid, lib)
      ensures socket == (if fullClientRequest.Some? then Connecting else NotCreated)
      ensures fullClientRequest.Some? ==> headers == AuthHeaders(config, fullClientRequest.value, lib)
      ensures sent == [] && ready.None? && published == [] && stream == Active
    {
      config := Configure(cluster, options);
      this.reqid := reqid;
      var request := FullClientRequest(Configure(cluster, options), reqid, lib);
      fullClientRequest := request;
      if request.Some? {
        FullRequestLayout(Configure(cluster, options), reqid, lib);
        headers := AuthHeaders(Configure(cluster, options), request.value, lib);
        socket := Connecting;
      } else {
        headers := map[];
        socket := NotCreated;
      }
      sent := [];
      ready := None;
      published := [];
      stream := Active;
    }

    /** ws.on('open'): the queued full client request is sent. */
    method OnOpen()
      requires Valid() && socket == Connecting
      modifies this
      ensures Valid()
      ensures socket == Open && sent == [fullClientRequest.value]
      ensures ready == old(ready) && published == old(published) && stream == old(stream)
    {
      socket := Open;
      sent := [fullClientRequest.value];
    }

    /** ws.on('message'): parse the frame; resolve ready on a matching reqid;
        publish the flattened utterances (even none); on a body whose code is
        not the success code, close the socket and complete the observer.
        A frame that parseResponse throws on changes nothing. */
    method OnMessage(data: seq<Byte>, lib: Library) returns (outcome: Result<Reaction, DecodeError>)
      requires Valid() && (socket == Open || socket == Closing)
      modifies this
      ensures Valid()
      ensures outcome == HandleMessage(data, reqid, lib)
      ensures sent == old(sent)
      ensures outcome.Failure? ==>
        ready == old(ready) && published == old(published) && socket == old(socket) && stream == old(stream)
      ensures outcome.Success? ==>
        var r := outcome.value;
        && ready == (if old(ready).None? && r.resolvesReady then Some(r.response) else old(ready))
        && published == old(published) + (if old(stream) == Active then [r.messages] else [])
        && socket == (if r.closes && old(socket) == Open then Closing else old(socket))
        && stream == (if r.closes && old(stream) == Active then Completed else old(stream))
    {
      outcome := HandleMessage(data, reqid, lib);
      if outcome.Failure? {
        return;
      }
      var r := outcome.value;
      if r.resolvesReady && ready.None? {
        ready := Some(r.response);
      }
      if stream == Active {
        published := published + [r.messages];
      }
      if r.closes {
        if socket == Open {
          socket := Closing;
        }
        if stream == Active {
          stream := Completed;
        }
      }
    }

    /** ws.on('close'): the observer completes. */
    method OnClose()
      requires Valid() && socket != NotCreated && socket != Closed
      modifies this
      ensures Valid()
      ensures socket == Closed
      ensures stream == (if old(stream) == Active then Completed else old(stream))
      ensures sent == old(sent) && ready == old(ready) && published == old(published)
    {
      socket := Closed;
      if stream == Active {
        stream := Completed;
      }
    }

    /** ws.on('error'): the observer fails; the close event follows separately. */
    method OnError()
      requires Valid() && socket != NotCreated
      modifies this
      ensures Valid()
      ensures stream == (if old(stream) == Active then Errored else old(stream))
      ensures socket == old(socket) && sent == old(sent) && ready == old(ready) && published == old(published)
    {
      if stream == Active {
        stream := Errored;
      }
    }

    /** execute: gzip the chunk, frame it behind the audio-only header and
        write it. The branch that would use the last-audio header is guarded
        by a constant false, so NEG_SEQUENCE is never sent. */
    method Execute(data: seq<Byte>, lib: Library) returns (outcome: ExecuteOutcome)
      requires Valid()
      modifies this
      ensures Valid()
      ensures var f := AudioOnlyRequest(data, lib);
        && outcome == (if f.None? then FrameTooLarge
                       else if socket == NotCreated || socket == Connecting then NotOpen
                       else if socket == Open then Sent
                       else DroppedAfterClose)
        && sent == (if outcome == Sent then old(sent) + [f.value] else old(sent))
      ensures socket == old(socket) && ready == old(ready) && published == old(published) && stream == old(stream)
    {
      var compressed := lib.gzip(data);
      var request: Option<seq<Byte>>;
      var last := false;
      if last {
        request := BuildFrame(LastAudioDefaultHeader(), compressed);
      } else {
        request := BuildFrame(AudioDefaultHeader(), compressed);
      }
      request := BuildFrame(AudioDefaultHeader(), compressed);
      if request.None? {
        return FrameTooLarge;
      }
      if socket == NotCreated || socket == Connecting {
        return NotOpen;
      }
      if socket != Open {
        return DroppedAfterClose;
      }
      AudioFrameNeverLast(data, lib);
      sent := sent + [request.value];
      outcome := Sent;
    }
  }
}
