/** AssemblyAIStt of src/events/assemblyai_stt.ts: the connection flag the
    transcriber's open/error/close events flip, the audio stream that
    onReceive feeds while connected, and the transcripts the turn handler
    forwards to its observer. */
module AssemblyAI {
  import opened Wrappers
  import opened Bytes

  /** The turn handler forwards a transcript exactly when it is truthy: present
      and not the empty string. */
  predicate Forwarded(transcript: Option<string>)
  {
    transcript.Some? && transcript.value != ""
  }

  class AssemblyAIStt {
    var isConnected: bool
    /** The chunks queued on the internal Readable, in order. */
    var audioQueue: seq<seq<Byte>>
    /** push(null) has marked the end of the audio stream. */
    var ended: bool
    /** A push after the end made the stream fail. */
    var streamFailed: bool
    /** The values passed to observer.next after its initial ''. */
    var transcripts: seq<string>

    /** Only non-empty chunks are queued and only non-empty transcripts are
        forwarded; nothing is queued once the stream has failed. */
    ghost predicate Valid()
      reads this
    {
      && (forall i :: 0 <= i < |audioQueue| ==> |audioQueue[i]| > 0)
      && (forall i :: 0 <= i < |transcripts| ==> transcripts[i] != "")
      && (streamFailed ==> ended)
    }

    constructor ()
      ensures Valid()
      ensures !isConnected && audioQueue == [] && !ended && !streamFailed && transcripts == []
    {
      isConnected := false;
      audioQueue := [];
      ended := false;
      streamFailed := false;
      transcripts := [];
    }

    method OnOpen()
      requires Valid()
      modifies this
      ensures Valid() && isConnected
      ensures audioQueue == old(audioQueue) && ended == old(ended) && streamFailed == old(streamFailed)
      ensures transcripts == old(transcripts)
    {
      isConnected := true;
    }

    method OnError()
      requires Valid()
      modifies this
      ensures Valid() && !isConnected
      ensures audioQueue == old(audioQueue) && ended == old(ended) && streamFailed == old(streamFailed)
      ensures transcripts == old(transcripts)
    {
      isConnected := false;
    }

    method OnClose()
      requires Valid()
      modifies this
      ensures Valid() && !isConnected
      ensures audioQueue == old(audioQueue) && ended == old(ended) && streamFailed == old(streamFailed)
      ensures transcripts == old(transcripts)
    {
      isConnected := false;
    }

    /** The turn handler: an empty or absent transcript is ignored, any other
        is forwarded verbatim. */
    method OnTurn(transcript: Option<string>)
      requires Valid()
      modifies this
      ensures Valid()
      ensures transcripts == old(transcripts) + (if Forwarded(transcript) then [transcript.value] else [])
      ensures isConnected == old(isConnected) && audioQueue == old(audioQueue)
      ensures ended == old(ended) && streamFailed == old(streamFailed)
    {
      if !Forwarded(transcript) {
        return;
      }
      transcripts := transcripts + [transcript.value];
    }

    /** onReceive: while disconnected the data is dropped; otherwise it is
        pushed unchanged onto the audio stream, which queues a non-empty chunk
        before the end and fails on a non-empty push after the end. */
    method OnReceive(data: seq<Byte>)
      requires Valid()
      modifies this
      ensures Valid()
      ensures !old(isConnected) ==> audioQueue == old(audioQueue) && streamFailed == old(streamFailed)
      ensures old(isConnected) && !old(ended) ==>
        audioQueue == old(audioQueue) + (if |data| > 0 then [data] else []) && streamFailed == old(streamFailed)
      ensures old(isConnected) && old(ended) ==>
        audioQueue == old(audioQueue) && streamFailed == (old(streamFailed) || |data| > 0)
      ensures isConnected == old(isConnected) && ended == old(ended) && transcripts == old(transcripts)
    {
      if !isConnected {
        return;
      }
      PushAudio(data);
    }

    /** audioStream.push(data) on the internal Readable: a zero-length chunk
        is ignored, before or after the end; a non-empty one after the end
        fails the stream. */
    method PushAudio(data: seq<Byte>)
      requires Valid()
      modifies this
      ensures Valid()
      ensures !old(ended) ==>
        audioQueue == old(audioQueue) + (if |data| > 0 then [data] else []) && streamFailed == old(streamFailed)
      ensures old(ended) ==> audioQueue == old(audioQueue) && streamFailed == (old(streamFailed) || |data| > 0)
      ensures isConnected == old(isConnected) && ended == old(ended) && transcripts == old(transcripts)
    {
      if |data| == 0 {
        return;
      }
      if ended {
        streamFailed := true;
      } else {
        audioQueue := audioQueue + [data];
      }
    }

    /** endAudioStream: push(null) marks the end; a second end is ignored. */
    method EndAudioStream()
      requires Valid()
      modifies this
      ensures Valid() && ended
      ensures isConnected == old(isConnected) && audioQueue == old(audioQueue)
      ensures streamFailed == old(streamFailed) && transcripts == old(transcripts)
    {
      ended := true;
    }

    /** close: end the audio stream, then ask the transcriber to close; the
        connection flag falls when its close event arrives (OnClose). */
    method Close()
      requires Valid()
      modifies this
      ensures Valid() && ended
      ensures isConnected == old(isConnected) && audioQueue == old(audioQueue)
      ensures streamFailed == old(streamFailed) && transcripts == old(transcripts)
    {
      EndAudioStream();
    }
  }

  /** Audio reaches the stream only between an open event and the next error
      or close: after either, every onReceive is dropped until the next open. */
  method DropAfterClose(stt: AssemblyAIStt, data: seq<Byte>)
    requires stt.Valid()
    modifies stt
    ensures stt.Valid() && !stt.isConnected
    ensures stt.audioQueue == old(stt.audioQueue)
  {
    stt.OnClose();
    stt.OnReceive(data);
  }
}
