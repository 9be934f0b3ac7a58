/** The call session store and audio router of src/events/events.service.ts.

    A Session keeps the latest definite utterances, an append-only log of
    system actions, and its subscribers, each a BehaviorSubject modelled as
    the log of events it has received (the initial null omitted). The pure
    step functions say what each Session operation does to that state; the
    Session class is proved against them. EventsService routes audio: it
    creates an AsrWsClient per session on the first buffer, caches that
    buffer, and sends every later buffer behind it. */
module Sessions {
  import opened Wrappers
  import opened Bytes
  import opened Protocol
  import opened AsrClient

  datatype SystemAction = SystemAction(role: string, content: string, startTime: int)

  datatype SessionData = SessionData(
    sessionId: string,
    messages: seq<Utterance>,
    systemActions: seq<SystemAction>,
    summaring: bool)

  /** The three event shapes a subscriber receives: `session`, `message` and
      `action`, each carrying the session id. */
  datatype SessionEvent =
    | SessionSnapshot(sessionId: string, snapshot: SessionData)
    | MessageEvent(sessionId: string, messages: seq<Utterance>)
    | ActionEvent(sessionId: string, actions: seq<SystemAction>)

  /** A session's data and, per subscriber key, the events it has received. */
  datatype SessionState = SessionState(data: SessionData, subs: map<string, seq<SessionEvent>>)

  // ---------------------------------------------------------------------------
  // The definite filter

  /** messages.filter(m => m.definite), in input order. */
  function Definite(ms: seq<Utterance>): (r: seq<Utterance>)
    ensures |r| <= |ms|
    ensures forall i :: 0 <= i < |r| ==> r[i].definite
  {
    if ms == [] then []
    else (if ms[0].definite then [ms[0]] else []) + Definite(ms[1..])
  }

  lemma {:induction false} DefiniteAppend(a: seq<Utterance>, b: seq<Utterance>)
    ensures Definite(a + b) == Definite(a) + Definite(b)
  {
    if a == [] {
      assert a + b == b;
    } else {
      assert (a + b)[0] == a[0];
      assert (a + b)[1..] == a[1..] + b;
      DefiniteAppend(a[1..], b);
    }
  }

  /** An utterance is kept exactly when it is in the input and definite. */
  lemma {:induction false} DefiniteMembers(ms: seq<Utterance>, u: Utterance)
    ensures u in Definite(ms) <==> u in ms && u.definite
  {
    if ms != [] {
      DefiniteMembers(ms[1..], u);
      assert ms == [ms[0]] + ms[1..];
    }
  }

  /** The filter is empty exactly when no input utterance is definite. */
  lemma {:induction false} DefiniteEmpty(ms: seq<Utterance>)
    ensures Definite(ms) == [] <==> forall i :: 0 <= i < |ms| ==> !ms[i].definite
  {
    if ms != [] {
      DefiniteEmpty(ms[1..]);
      if ms[0].definite {
        assert Definite(ms)[0] == ms[0];
      } else {
        assert forall i :: 1 <= i < |ms| ==> ms[i] == ms[1..][i - 1];
      }
    }
  }

  /** A list of definite utterances passes the filter unchanged; in
      particular the filter is idempotent. */
  lemma {:induction false} DefiniteKeepsDefinite(ms: seq<Utterance>)
    requires forall i :: 0 <= i < |ms| ==> ms[i].definite
    ensures Definite(ms) == ms
  {
    if ms != [] {
      DefiniteKeepsDefinite(ms[1..]);
      assert ms == [ms[0]] + ms[1..];
    }
  }

  lemma DefiniteIdempotent(ms: seq<Utterance>)
    ensures Definite(Definite(ms)) == Definite(ms)
  {
    DefiniteKeepsDefinite(Definite(ms));
  }

  // ---------------------------------------------------------------------------
  // Session steps

  /** subject.next(e) for every current subscriber. */
  function Fanout(subs: map<string, seq<SessionEvent>>, e: SessionEvent): (r: map<string, seq<SessionEvent>>)
    ensures r.Keys == subs.Keys
    ensures forall k :: k in r ==> r[k] == subs[k] + [e]
  {
    map k | k in subs :: subs[k] + [e]
  }

  /** The constructor: no messages, no actions, not summarising, no subscribers. */
  function NewSession(sessionId: string): SessionState
  {
    SessionState(SessionData(sessionId, [], [], false), map[])
  }

  /** addMessage: nothing happens unless some utterance is definite; then the
      definite ones replace the stored messages and are published. */
  function AddMessageStep(s: SessionState, ms: seq<Utterance>): SessionState
  {
    var kept := Definite(ms);
    if kept == [] then s
    else SessionState(s.data.(messages := kept), Fanout(s.subs, MessageEvent(s.data.sessionId, kept)))
  }

  /** addSystemAction: append the actions and publish the whole log. */
  function AddSystemActionStep(s: SessionState, actions: seq<SystemAction>): SessionState
  {
    var log := s.data.systemActions + actions;
    SessionState(s.data.(systemActions := log), Fanout(s.subs, ActionEvent(s.data.sessionId, log)))
  }

  /** sub(key): a fresh subject under `key`, whose first event is a snapshot. */
  function SubStep(s: SessionState, key: string): SessionState
  {
    SessionState(s.data, s.subs[key := [SessionSnapshot(s.data.sessionId, s.data)]])
  }

  /** What every session satisfies: its stored messages are all definite and
      the summarising flag, which nothing ever raises, is down. */
  ghost predicate GoodSession(s: SessionState)
  {
    && (forall i :: 0 <= i < |s.data.messages| ==> s.data.messages[i].definite)
    && !s.data.summaring
  }

  /** A fresh session is empty and good. */
  lemma NewSessionEmpty(sessionId: string)
    ensures var s := NewSession(sessionId);
      && GoodSession(s)
      && s.data.sessionId == sessionId && s.data.messages == [] && s.data.systemActions == []
      && s.subs == map[]
  {
  }

  /** With at least one definite utterance, addMessage stores exactly the
      definite ones in input order, keeps the id and the action log, and
      gives every subscriber, and no one else, exactly one message event. */
  lemma AddMessageStores(s: SessionState, ms: seq<Utterance>)
    requires exists i :: 0 <= i < |ms| && ms[i].definite
    ensures var r := AddMessageStep(s, ms);
      && r.data.messages == Definite(ms)
      && r.data.sessionId == s.data.sessionId
      && r.data.systemActions == s.data.systemActions
      && r.data.summaring == s.data.summaring
      && r.subs.Keys == s.subs.Keys
      && (forall k :: k in s.subs ==> r.subs[k] == s.subs[k] + [MessageEvent(s.data.sessionId, Definite(ms))])
  {
    DefiniteEmpty(ms);
  }

  /** Without any definite utterance, addMessage changes nothing and
      publishes nothing. */
  lemma AddMessageIgnoresPartial(s: SessionState, ms: seq<Utterance>)
    requires forall i :: 0 <= i < |ms| ==> !ms[i].definite
    ensures AddMessageStep(s, ms) == s
  {
    DefiniteEmpty(ms);
  }

  /** There is no equality check: the same input twice leaves the same data
      but publishes the same event twice. */
  lemma AddMessageNoDedup(s: SessionState, ms: seq<Utterance>)
    requires Definite(ms) != []
    ensures var once := AddMessageStep(s, ms);
      var twice := AddMessageStep(once, ms);
      var e := MessageEvent(s.data.sessionId, Definite(ms));
      && twice.data == once.data
      && twice.subs.Keys == s.subs.Keys
      && (forall k :: k in s.subs ==> twice.subs[k] == s.subs[k] + [e, e])
  {
  }

  /** addSystemAction keeps the earlier log as a prefix, appends the actions
      in order, and gives every subscriber the whole new log. */
  lemma AddSystemActionAppends(s: SessionState, actions: seq<SystemAction>)
    ensures var r := AddSystemActionStep(s, actions);
      && s.data.systemActions <= r.data.systemActions
      && r.data.systemActions[|s.data.systemActions|..] == actions
      && r.data.messages == s.data.messages && r.data.sessionId == s.data.sessionId
      && r.subs.Keys == s.subs.Keys
      && (forall k :: k in s.subs ==> r.subs[k] == s.subs[k] + [ActionEvent(s.data.sessionId, r.data.systemActions)])
  {
  }

  /** sub(key) adds or replaces the subscriber under `key` only, and its only
      event so far is the snapshot of the session. */
  lemma SubSnapshotFirst(s: SessionState, key: string)
    ensures var r := SubStep(s, key);
      && r.data == s.data
      && r.subs.Keys == s.subs.Keys + {key}
      && r.subs[key] == [SessionSnapshot(s.data.sessionId, s.data)]
      && (forall k :: k in s.subs && k != key ==> r.subs[k] == s.subs[k])
  {
  }

  /** Every step keeps a session good. */
  lemma StepsKeepGood(s: SessionState, ms: seq<Utterance>, actions: seq<SystemAction>, key: string)
    requires GoodSession(s)
    ensures GoodSession(AddMessageStep(s, ms))
    ensures GoodSession(AddSystemActionStep(s, actions))
    ensures GoodSession(SubStep(s, key))
  {
  }

  // ---------------------------------------------------------------------------
  // The Session class

  class Session {
    var data: SessionData
    var subs: map<string, seq<SessionEvent>>

    function State(): SessionState
      reads this
    {
      SessionState(data, subs)
    }

    ghost predicate Valid()
      reads this
    {
      GoodSession(State())
    }

    constructor (sessionId: string)
      ensures Valid() && State() == NewSession(sessionId)
    {
      data := SessionData(sessionId, [], [], false);
      subs := map[];
    }

    /** Give every current subscriber the event. */
    method Publish(e: SessionEvent)
      modifies this
      ensures data == old(data) && subs == Fanout(old(subs), e)
    {
      var keys := subs.Keys;
      while keys != {}
        invariant keys <= old(subs).Keys && subs.Keys == old(subs).Keys && data == old(data)
        invariant forall k :: k in subs ==> subs[k] == if k in keys then old(subs)[k] else old(subs)[k] + [e]
        decreases keys
      {
        var k :| k in keys;
        subs := subs[k := subs[k] + [e]];
        keys := keys - {k};
      }
    }

    method AddMessage(ms: seq<Utterance>)
      requires Valid()
      modifies this
      ensures Valid() && State() == AddMessageStep(old(State()), ms)
    {
      var kept := Definite(ms);
      if |kept| == 0 {
        return;
      }
      data := data.(messages := kept);
      Publish(MessageEvent(data.sessionId, kept));
    }

    method AddSystemAction(actions: seq<SystemAction>)
      requires Valid()
      modifies this
      ensures Valid() && State() == AddSystemActionStep(old(State()), actions)
    {
      data := data.(systemActions := data.systemActions + actions);
      Publish(ActionEvent(data.sessionId, data.systemActions));
    }

    /** Returns the new subscriber's event log. */
    method Sub(key: string) returns (events: seq<SessionEvent>)
      requires Valid()
      modifies this
      ensures Valid() && State() == SubStep(old(State()), key)
      ensures events == [SessionSnapshot(data.sessionId, data)]
    {
      subs := subs[key := []];
      events := [SessionSnapshot(data.sessionId, data)];
      subs := subs[key := events];
    }
  }

  // ---------------------------------------------------------------------------
  // EventsService

  /** How bufferToStt returns: the session is unknown; this first buffer
      created the session's client and was cached; or the call now waits on
      the client's ready promise (SendAfterReady runs once it resolves). */
  datatype BufferOutcome = UnknownSession | ClientCreated | AwaitingReady

  /** How the part of bufferToStt after the await ends: the transcoder
      rejected (the call's promise rejects), or execute ran with this outcome. */
  datatype SendOutcome = TranscodeFailed | Executed(result: ExecuteOutcome)

  /** `configService.get(key) ?? ''`. */
  function OrEmpty(x: Option<string>): string
  {
    if x.Some? then x.value else ""
  }

  /** The options bufferToStt passes: token, appid and the wav format; every
      other option is absent. */
  function SttOptions(token: string, appid: string): (o: AsrClientOptions)
    ensures o.token == token && o.appid == appid && o.format == Some("wav")
    ensures o.segDuration.None? && o.nbest.None? && o.wsUrl.None? && o.uid.None? && o.workflow.None?
    ensures o.showLanguage.None? && o.showUtterances.None? && o.resultType.None? && o.sampleRate.None?
    ensures o.language.None? && o.bits.None? && o.channel.None? && o.codec.None? && o.audioType.None?
    ensures o.secret.None? && o.authMethod.None? && o.mp3SegSize.None?
  {
    AsrClientOptions(appid, token, None, None, None, None, None, None, None, None,
                     Some("wav"), None, None, None, None, None, None, None, None, None)
  }

  /** No two keys share a value. */
  ghost predicate Injective<V>(m: map<string, V>)
  {
    forall a, b :: a in m && b in m && a != b ==> m[a] != m[b]
  }

  lemma InjectiveUpdate<V>(m: map<string, V>, k: string, v: V)
    requires Injective(m) && v !in m.Values
    ensures Injective(m[k := v])
  {
    var m' := m[k := v];
    forall a, b | a in m' && b in m' && a != b
      ensures m'[a] != m'[b]
    {
      if a != k && b != k {
        assert m[a] != m[b];
      } else if a == k {
        assert m[b] in m.Values;
      } else {
        assert m[a] in m.Values;
      }
    }
  }

  /** Each session is its own object, stored under its own id, and good. */
  ghost predicate SessionsValid(sessions: map<string, Session>)
    reads sessions.Values
  {
    && Injective(sessions)
    && (forall sid :: sid in sessions ==> sessions[sid].data.sessionId == sid && sessions[sid].Valid())
  }

  /** The configuration of every client the service creates: the configured
      credentials and cluster, wav at 16000 Hz, one best candidate, token
      authentication and utterances shown. */
  lemma ServiceClientConfig(cluster: string, token: string, appid: string)
    ensures var c := Configure(cluster, SttOptions(token, appid));
      && c.cluster == cluster && c.token == token && c.appid == appid
      && c.format == "wav" && c.rate == 16000 && c.nbest == 1
      && c.authMethod == "token" && c.showUtterances && !c.showLanguage
  {
    var o := SttOptions(token, appid);
    var c := Configure(cluster, o);
    assert c.format == "wav" && c.showUtterances;
  }

  class EventsService {
    const lib: Library
    /** The configuration values stt_clusterId, stt_ak and stt_appId. */
    const clusterSetting: Option<string>
    const tokenSetting: Option<string>
    const appidSetting: Option<string>

    var sessions: map<string, Session>
    var clients: map<string, AsrWsClient>
    var firstChunks: map<string, seq<Byte>>
    /** The counter shared by every session. */
    var chunk: int

    /** Each session is stored under its own id and is good; sessions and
        clients are distinct objects per id; a client exists only for a known
        session and exactly the ids with a client have a cached first chunk. */
    ghost predicate Valid()
      reads this, sessions.Values
    {
      SessionsValid(sessions) && ClientsValid()
    }

    /** Each client is its own object and belongs to a known session, and the
        ids with a client are those with a cached first chunk. */
    ghost predicate ClientsValid()
      reads this
    {
      && Injective(clients)
      && clients.Keys <= sessions.Keys
      && firstChunks.Keys == clients.Keys
      && chunk >= 1
    }

    constructor (lib: Library, clusterSetting: Option<string>, tokenSetting: Option<string>, appidSetting: Option<string>)
      ensures Valid() && this.lib == lib
      ensures this.clusterSetting == clusterSetting && this.tokenSetting == tokenSetting
      ensures this.appidSetting == appidSetting
      ensures sessions == map[] && clients == map[] && firstChunks == map[] && chunk == 1
    {
      this.lib := lib;
      this.clusterSetting := clusterSetting;
      this.tokenSetting := tokenSetting;
      this.appidSetting := appidSetting;
      sessions := map[];
      clients := map[];
      firstChunks := map[];
      chunk := 1;
    }

    /** createSession: a fresh session under the id, replacing any earlier one;
        the id's client and cached first chunk, if any, stay. */
    method CreateSession(sessionId: string) returns (s: Session)
      requires Valid()
      modifies this
      ensures Valid() && fresh(s) && s.State() == NewSession(sessionId)
      ensures sessions == old(sessions)[sessionId := s]
      ensures clients == old(clients) && firstChunks == old(firstChunks) && chunk == old(chunk)
    {
      s := new Session(sessionId);
      sessions := sessions[sessionId := s];
    }

    /** bufferToStt up to its await: unknown sessions are ignored; the first
        buffer of a session creates its client and is cached, not sent; any
        later buffer waits for the client's ready promise and changes nothing
        yet. */
    method BufferToStt(sessionId: string, buffer: seq<Byte>, reqid: string) returns (r: BufferOutcome)
      requires Valid()
      modifies this
      ensures Valid()
      ensures sessions == old(sessions) && chunk == old(chunk)
      ensures sessionId !in old(sessions) ==>
        r == UnknownSession && clients == old(clients) && firstChunks == old(firstChunks)
      ensures sessionId in old(clients) ==>
        r == AwaitingReady && clients == old(clients) && firstChunks == old(firstChunks)
      ensures sessionId in old(sessions) && sessionId !in old(clients) ==>
        && r == ClientCreated
        && sessionId in clients && fresh(clients[sessionId])
        && clients == old(clients)[sessionId := clients[sessionId]]
        && firstChunks == old(firstChunks)[sessionId := buffer]
        && clients[sessionId].Valid()
        && clients[sessionId].config == Configure(OrEmpty(clusterSetting), SttOptions(OrEmpty(tokenSetting), OrEmpty(appidSetting)))
        && clients[sessionId].reqid == reqid
        && clients[sessionId].sent == [] && clients[sessionId].published == []
        && clients[sessionId].fullClientRequest == FullClientRequest(clients[sessionId].config, reqid, lib)
        && clients[sessionId].socket == (if clients[sessionId].fullClientRequest.Some? then Connecting else NotCreated)
        && clients[sessionId].ready.None? && clients[sessionId].stream == Active
      ensures forall k :: k in old(firstChunks) ==> k in firstChunks && firstChunks[k] == old(firstChunks)[k]
    {
      if sessionId !in sessions {
        return UnknownSession;
      }
      if sessionId !in clients {
        AttachClient(sessionId, buffer, reqid);
        return ClientCreated;
      }
      return AwaitingReady;
    }

    /** The first buffer of a known session: create its client from the
        configuration and cache the buffer as the session's first chunk. */
    method AttachClient(sessionId: string, buffer: seq<Byte>, reqid: string)
      requires Valid() && sessionId in sessions && sessionId !in clients
      modifies this
      ensures Valid()
      ensures sessions == old(sessions) && chunk == old(chunk)
      ensures sessionId in clients && fresh(clients[sessionId])
      ensures clients == old(clients)[sessionId := clients[sessionId]]
      ensures firstChunks == old(firstChunks)[sessionId := buffer]
      ensures clients[sessionId].Valid()
      ensures clients[sessionId].config == Configure(OrEmpty(clusterSetting), SttOptions(OrEmpty(tokenSetting), OrEmpty(appidSetting)))
      ensures clients[sessionId].reqid == reqid
      ensures clients[sessionId].sent == [] && clients[sessionId].published == []
      ensures clients[sessionId].fullClientRequest == FullClientRequest(clients[sessionId].config, reqid, lib)
      ensures clients[sessionId].socket == (if clients[sessionId].fullClientRequest.Some? then Connecting else NotCreated)
      ensures clients[sessionId].ready.None? && clients[sessionId].stream == Active
    {
      var client := new AsrWsClient(OrEmpty(clusterSetting), SttOptions(OrEmpty(tokenSetting), OrEmpty(appidSetting)), reqid, lib);
      InjectiveUpdate(clients, sessionId, client);
      clients := clients[sessionId := client];
      firstChunks := firstChunks[sessionId := buffer];
    }

    /** The rest of bufferToStt, once the client's ready promise has resolved:
        bump the shared counter, transcode the cached first chunk followed by
        this buffer, and hand the result to the client's execute. */
    method SendAfterReady(sessionId: string, buffer: seq<Byte>) returns (r: SendOutcome)
      requires Valid() && sessionId in clients && clients[sessionId].Valid() && clients[sessionId].ready.Some?
      modifies this, clients[sessionId]
      ensures sessions == old(sessions) && clients == old(clients) && firstChunks == old(firstChunks)
      ensures Valid() && clients[sessionId].Valid()
      ensures chunk == old(chunk) + 1
      ensures var wav := lib.transcodeToWav(firstChunks[sessionId] + buffer);
        && (wav.None? ==> r == TranscodeFailed && clients[sessionId].sent == old(clients[sessionId].sent))
        && (wav.Some? ==>
              var f := AudioOnlyRequest(wav.value, lib);
              && r == Executed(if f.None? then FrameTooLarge
                               else if old(clients[sessionId].socket) == Open then Sent
                               else DroppedAfterClose)
              && clients[sessionId].sent == old(clients[sessionId].sent) + (if r == Executed(Sent) then [f.value] else []))
      ensures clients[sessionId].socket == old(clients[sessionId].socket)
      ensures clients[sessionId].published == old(clients[sessionId].published)
      ensures clients[sessionId].ready == old(clients[sessionId].ready)
      ensures clients[sessionId].stream == old(clients[sessionId].stream)
    {
      var client := clients[sessionId];
      var newBuffer := firstChunks[sessionId] + buffer;
      chunk := chunk + 1;
      var wav := lib.transcodeToWav(newBuffer);
      if wav.None? {
        return TranscodeFailed;
      }
      var outcome := client.Execute(wav.value, lib);
      assert SessionsValid(sessions);
      r := Executed(outcome);
    }

    /** The observer callback subscribed in bufferToStt: a non-empty list goes
        to the session's addMessage, after which summaring is cleared (the
        summary request it starts is not part of this model). */
    method Deliver(sessionId: string, messages: seq<Utterance>)
      requires Valid()
      modifies sessions.Values
      ensures Valid()
      ensures forall k :: k in sessions && (k != sessionId || messages == []) ==>
        sessions[k].State() == old(sessions[k].State())
      ensures sessionId in sessions && messages != [] ==>
        var s := AddMessageStep(old(sessions[sessionId].State()), messages);
        sessions[sessionId].State() == SessionState(s.data.(summaring := false), s.subs)
    {
      if |messages| > 0 {
        if sessionId !in sessions {
          return;
        }
        var session := sessions[sessionId];
        session.AddMessage(messages);
        session.data := session.data.(summaring := false);
      }
    }

    /** A frame arriving on a session's client socket: the client handles it,
        and whatever it publishes while its observer is active reaches the
        session through the observer callback. */
    method ClientMessage(sessionId: string, data: seq<Byte>) returns (outcome: Result<Reaction, DecodeError>)
      requires Valid() && sessionId in clients && clients[sessionId].Valid()
      requires clients[sessionId].socket == Open || clients[sessionId].socket == Closing
      modifies clients[sessionId], sessions.Values
      ensures Valid() && clients[sessionId].Valid()
      ensures outcome == HandleMessage(data, clients[sessionId].reqid, lib)
      ensures clients[sessionId].sent == old(clients[sessionId].sent)
      ensures outcome.Failure? ==>
        && clients[sessionId].ready == old(clients[sessionId].ready)
        && clients[sessionId].published == old(clients[sessionId].published)
        && clients[sessionId].socket == old(clients[sessionId].socket)
        && clients[sessionId].stream == old(clients[sessionId].stream)
      ensures outcome.Success? ==>
        var r := outcome.value;
        && clients[sessionId].ready == (if old(clients[sessionId].ready).None? && r.resolvesReady then Some(r.response) else old(clients[sessionId].ready))
        && clients[sessionId].published == old(clients[sessionId].published) + (if old(clients[sessionId].stream) == Active then [r.messages] else [])
        && clients[sessionId].socket == (if r.closes && old(clients[sessionId].socket) == Open then Closing else old(clients[sessionId].socket))
        && clients[sessionId].stream == (if r.closes && old(clients[sessionId].stream) == Active then Completed else old(clients[sessionId].stream))
      ensures var delivered := outcome.Success? && old(clients[sessionId].stream) == Active;
        && (forall k :: k in sessions && (k != sessionId || !delivered || outcome.value.messages == []) ==>
              sessions[k].State() == old(sessions[k].State()))
        && (delivered && outcome.value.messages != [] ==>
              var s := AddMessageStep(old(sessions[sessionId].State()), outcome.value.messages);
              sessions[sessionId].State() == SessionState(s.data.(summaring := false), s.subs))
    {
      var client := clients[sessionId];
      var wasActive := client.stream == Active;
      outcome := client.OnMessage(data, lib);
      assert SessionsValid(sessions);
      if outcome.Success? && wasActive {
        Deliver(sessionId, outcome.value.messages);
      }
    }

    /** subscribeSession: nothing for an unknown id; otherwise sub(clientId)
        on that session, returning the subscriber's events. */
    method SubscribeSession(clientId: string, sessionId: string) returns (events: Option<seq<SessionEvent>>)
      requires Valid()
      modifies sessions.Values
      ensures Valid()
      ensures forall k :: k in sessions && k != sessionId ==> sessions[k].State() == old(sessions[k].State())
      ensures sessionId !in sessions ==> events.None?
      ensures sessionId in sessions ==>
        && sessions[sessionId].State() == SubStep(old(sessions[sessionId].State()), clientId)
        && events == Some([SessionSnapshot(sessionId, old(sessions[sessionId].data))])
    {
      if sessionId !in sessions {
        return None;
      }
      var log := sessions[sessionId].Sub(clientId);
      events := Some(log);
    }
  }
}
