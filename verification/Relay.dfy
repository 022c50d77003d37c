/** The relay of one request: selection, retries, the forwarded response and the usage record. */
module Relay {
  import opened Wrappers
  import opened Providers
  import opened RoutingIndex
  import opened Ledger
  import opened Usage
  import Endpoint

  type Byte = b: int | 0 <= b < 256

  datatype Json = Raw(text: string) | Quoted(text: string)

  type Fields = map<string, Json>

  // finishedAt is the time the clock shows when the relay ends.
  datatype Request = Request(
    supportedFormat: bool,
    kind: Endpoint.Kind,
    model: string,
    fields: Fields,
    finishedAt: int)

  // How an upstream body ends: after its last bytes, together with them, or broken off. The
  // cache state is what the cache headers of the response say.
  datatype Reply =
    | SendError(reason: string)
    | Response(status: int, cacheState: string, chunks: seq<seq<Byte>>, endsWithData: bool, broken: bool)

  // What one iteration of the retry loop meets: the provider list cached at that moment, the
  // random number, and the upstream's answer.
  datatype Turn = Turn(providers: seq<Provider>, draw: nat, reply: Reply)

  datatype Message = NoMessage | SendFailed(reason: string) | UpstreamStatus(status: int) | Unselected(why: Selection)

  datatype Event =
    | Attempt(provider: Provider, body: Fields)
    | Status(code: int, cacheState: string)
    | Body(data: seq<Byte>)
    | ErrorResponse(code: int, errorCode: string, message: Message)
    | UsageRecorded(record: UsageRecord)
    | Aborted

  function CapabilityOf(kind: Endpoint.Kind): string {
    match kind
    case ChatCompletions => CHAT_COMPLETIONS
    case Completions => COMPLETIONS
  }

  function ReplayableBody(fields: Fields): Fields {
    fields - {"group"}
  }

  function EncodeFor(fields: Fields, p: Provider, model: string): Fields {
    fields["model" := Quoted(p.UpstreamModel(model))]
  }

  predicate ShouldRetry(status: int) {
    status == 429 || status >= 500
  }

  predicate Retryable(reply: Reply) {
    reply.SendError? || ShouldRetry(reply.status)
  }

  function ErrorOf(reply: Reply): Message {
    if reply.SendError? then SendFailed(reply.reason) else UpstreamStatus(reply.status)
  }

  function Flat(chunks: seq<seq<Byte>>): seq<Byte> {
    if chunks == [] then [] else chunks[0] + Flat(chunks[1..])
  }

  // What a client that takes at most room bytes receives of a body.
  function Received(data: seq<Byte>, room: nat): seq<Byte> {
    if |data| <= room then data else data[..room]
  }

  // ---------- Copying a response ----------

  datatype ReadError = Nothing | Eof | BrokenOff

  class UpstreamBody {
    var chunks: seq<seq<Byte>>
    const endsWithData: bool
    const broken: bool

    constructor (chunks: seq<seq<Byte>>, endsWithData: bool, broken: bool)
      ensures this.chunks == chunks && this.endsWithData == endsWithData && this.broken == broken
    {
      this.chunks := chunks;
      this.endsWithData := endsWithData;
      this.broken := broken;
    }

    function Left(): nat
      reads this
    {
      |Flat(chunks)| + |chunks|
    }

    // Fills the front of the buffer from the next chunk; a long chunk takes several reads.
    method Read(buffer: array<Byte>) returns (n: nat, err: ReadError)
      requires buffer.Length > 0
      modifies this, buffer
      ensures n <= buffer.Length && buffer[..n] + Flat(chunks) == old(Flat(chunks))
      ensures err.Nothing? ==> Left() < old(Left())
      ensures !err.Nothing? ==> chunks == [] && err == if broken then BrokenOff else Eof
    {
      if chunks == [] {
        return 0, if broken then BrokenOff else Eof;
      }
      var chunk := chunks[0];
      n := if |chunk| <= buffer.Length then |chunk| else buffer.Length;
      for i := 0 to n
        invariant buffer[..i] == chunk[..i]
        invariant chunks == old(chunks)
      {
        buffer[i] := chunk[i];
      }
      assert Flat(chunks) == chunk + Flat(chunks[1..]);
      if n < |chunk| {
        chunks := [chunk[n..]] + chunks[1..];
        assert chunk == chunk[..n] + chunk[n..];
        return n, Nothing;
      }
      chunks := chunks[1..];
      assert chunk[..n] == chunk;
      if chunks == [] && endsWithData {
        return n, if broken then BrokenOff else Eof;
      }
      return n, Nothing;
    }
  }

  // The client's end of the connection, which takes a limited number of bytes before it fails.
  class ClientConn {
    var status: Option<int>
    var delivered: seq<Byte>
    var room: nat
    // A write has failed: the connection is gone, and with it the context of its request.
    var lost: bool

    constructor (room: nat)
      ensures status == None && delivered == [] && this.room == room && !lost
    {
      this.lost := false;
      this.status := None;
      this.delivered := [];
      this.room := room;
    }

    method WriteHeader(code: int)
      modifies this`status
      ensures status == if old(status) == None then Some(code) else old(status)
    {
      if status == None {
        status := Some(code);
      }
    }

    method Write(data: seq<Byte>) returns (n: nat, ok: bool)
      modifies this`delivered, this`room, this`lost
      ensures delivered == old(delivered) + Received(data, old(room))
      ensures n == |Received(data, old(room))| && room == old(room) - n
      ensures (ok <==> |data| <= old(room)) && lost == (old(lost) || !ok)
    {
      lost := lost || |data| > room;
      n := if |data| <= room then |data| else room;
      ok := |data| <= room;
      delivered := delivered + Received(data, room);
      room := room - n;
    }
  }

  class ResponseCommitTracker {
    var statusCommitted: bool
    var bodyCommitted: bool
    var statusCode: int

    constructor ()
      ensures !statusCommitted && !bodyCommitted && statusCode == 0
    {
      statusCommitted, bodyCommitted, statusCode := false, false, 0;
    }

    method WriteHeader(w: ClientConn, code: int)
      modifies this, w`status
      ensures statusCommitted && bodyCommitted == old(bodyCommitted)
      ensures statusCode == if old(statusCommitted) then old(statusCode) else code
      ensures w.status == if old(w.status) == None then Some(code) else old(w.status)
    {
      if !statusCommitted {
        statusCommitted := true;
        statusCode := code;
      }
      w.WriteHeader(code);
    }

    method Write(w: ClientConn, data: seq<Byte>) returns (n: nat, ok: bool)
      modifies this, w`delivered, w`room, w`lost
      ensures statusCommitted
      ensures statusCode == if old(statusCommitted) then old(statusCode) else 200
      ensures w.delivered == old(w.delivered) + Received(data, old(w.room))
      ensures n == |Received(data, old(w.room))| && w.room == old(w.room) - n
      ensures bodyCommitted == (old(bodyCommitted) || n > 0)
      ensures (ok <==> |data| <= old(w.room)) && w.lost == (old(w.lost) || !ok)
    {
      if !statusCommitted {
        statusCommitted := true;
        statusCode := 200;
      }
      n, ok := w.Write(data);
      if n > 0 {
        bodyCommitted := true;
      }
    }
  }

  // Copies a response through a fixed buffer. However the body is cut into chunks, the client
  // receives the longest prefix it can take, and the copy succeeds exactly when that is all of
  // an unbroken body.
  method CopyUpstreamResponse(w: ClientConn, body: UpstreamBody, status: int, tracker: ResponseCommitTracker)
    returns (ok: bool)
    requires w.status == None && w.delivered == [] && !w.lost && !tracker.statusCommitted
    modifies w, body, tracker
    ensures w.status == Some(status) && tracker.statusCommitted && tracker.statusCode == status
    ensures w.delivered == Received(old(Flat(body.chunks)), old(w.room))
    ensures ok <==> !body.broken && |old(Flat(body.chunks))| <= old(w.room)
    ensures w.lost <==> old(w.room) < |old(Flat(body.chunks))|
  {
    tracker.WriteHeader(w, status);
    var buffer := new Byte[32 * 1024];
    ghost var total, room := Flat(body.chunks), w.room;
    while true
      invariant w.delivered + Flat(body.chunks) == total && w.room == room - |w.delivered|
      invariant w.status == Some(status) && tracker.statusCommitted && tracker.statusCode == status && !w.lost
      decreases body.Left()
    {
      ghost var done := w.delivered;
      var n, err := body.Read(buffer);
      ghost var data, rest := buffer[..n], Flat(body.chunks);
      Regroup(done, data, rest, total);
      if n > 0 {
        var _, written := tracker.Write(w, buffer[..n]);
        if !written {
          CutShort(done, data, rest, room);
          return false;
        }
        AllTaken(data, room - |done|);
      }
      if !err.Nothing? {
        AllTaken(total, room);
        assert rest == [];
        return err.Eof?;
      }
    }
  }

  lemma Regroup(done: seq<Byte>, data: seq<Byte>, rest: seq<Byte>, total: seq<Byte>)
    requires done + (data + rest) == total
    ensures done + data + rest == total
    ensures data == [] ==> done + rest == total
  {
    if data == [] {
      assert data + rest == rest;
    }
  }

  lemma AllTaken(data: seq<Byte>, room: int)
    requires 0 <= room
    ensures |data| <= room ==> Received(data, room) == data
  {
  }

  lemma CutShort(done: seq<Byte>, data: seq<Byte>, rest: seq<Byte>, room: nat)
    requires |done| <= room < |done| + |data|
    ensures done + Received(data, room - |done|) == Received(done + data + rest, room)
    ensures |done + data + rest| > room
  {
  }

  // ---------- The retry loop ----------

  function SelectAt(req: Request, turn: Turn, attempted: set<nat>): Selection {
    Select(BuildIndex(turn.providers), req.model, CapabilityOf(req.kind), attempted, turn.draw)
  }

  function Ids(events: seq<Event>): set<nat> {
    set e | e in events && e.Attempt? :: e.provider.id
  }

  // Event i is an attempt on the provider selected at that moment, excluding the earlier ones,
  // and carries the client's own request with only the model rewritten.
  ghost predicate TriedAt(req: Request, turns: seq<Turn>, log: seq<Event>, i: int) {
    0 <= i < |log| && i < |turns| &&
    exists p :: SelectAt(req, turns[i], Ids(log[..i])) == Selected(p)
                && log[i] == Attempt(p, EncodeFor(ReplayableBody(req.fields), p, req.model))
  }

  ghost predicate Tried(req: Request, turns: seq<Turn>, log: seq<Event>, n: nat) {
    n <= |log| && n <= |turns| && forall i :: 0 <= i < n ==> TriedAt(req, turns, log, i)
  }

  function FailureExit(
      req: Request, selected: Option<Provider>, code: int, errorCode: string, message: Message): seq<Event> {
    [UsageRecorded(UsageRecord(
       req.model, selected, CapabilityOf(req.kind), OUTCOME_FAILED, code, 0, "", errorCode, req.finishedAt)),
     ErrorResponse(code, errorCode, message)]
  }

  function OutcomeOf(status: int): string {
    if status >= 400 then OUTCOME_FAILED else OUTCOME_SUCCESS
  }

  function ForwardExit(req: Request, selected: Provider, reply: Reply, room: nat): seq<Event>
    requires reply.Response?
  {
    [Status(reply.status, reply.cacheState),
     Body(Received(Flat(reply.chunks), room)),
     UsageRecorded(UsageRecord(
       req.model, Some(selected), CapabilityOf(req.kind), OutcomeOf(reply.status), reply.status, reply.status,
       reply.cacheState, "", req.finishedAt))]
  }

  function LastProvider(log: seq<Event>, n: nat): Option<Provider>
    requires n <= |log|
  {
    if n > 0 && log[n - 1].Attempt? then Some(log[n - 1].provider) else None
  }

  function LastError(turns: seq<Turn>, n: nat): Message
    requires n <= |turns|
  {
    if n > 0 then ErrorOf(turns[n - 1].reply) else NoMessage
  }

  // The exit taken after n attempts.
  ghost predicate ExitAfter(req: Request, maxRetries: int, turns: seq<Turn>, room: nat, log: seq<Event>, n: nat)
    requires n <= |log| && n <= |turns|
  {
    var tail := log[n..];
    var upstreamError := FailureExit(req, LastProvider(log, n), 502, "upstream_error", LastError(turns, n));
    if n > 0 && !Retryable(turns[n - 1].reply) then
      log[n - 1].Attempt? && tail == ForwardExit(req, log[n - 1].provider, turns[n - 1].reply, room)
    else if n > maxRetries then tail == upstreamError
    else
      n < |turns| &&
      match SelectAt(req, turns[n], Ids(log[..n]))
      case Selected(_) => false
      case Panicked => tail == [Aborted]
      case why =>
        tail == if n > 0 then upstreamError else FailureExit(req, None, 503, "model_not_found", Unselected(why))
  }

  // The log is a complete relay with n attempts: all but the last were answered retryably.
  ghost predicate RelayedIn(req: Request, maxRetries: int, turns: seq<Turn>, room: nat, log: seq<Event>, n: nat) {
    && Tried(req, turns, log, n)
    && n <= (if maxRetries < 0 then 0 else maxRetries + 1)
    && (forall i :: 0 <= i < n - 1 ==> Retryable(turns[i].reply))
    && ExitAfter(req, maxRetries, turns, room, log, n)
  }

  ghost predicate Relayed(req: Request, maxRetries: int, turns: seq<Turn>, room: nat, log: seq<Event>) {
    if !req.supportedFormat then
      log == FailureExit(req, None, 500, "unsupported_relay_format", NoMessage)
    else
      exists n: nat :: RelayedIn(req, maxRetries, turns, room, log, n)
  }

  class RelayAttemptState {
    var attempted: set<nat>
    var lastErr: Option<Message>
    var lastSelected: Option<Provider>

    constructor ()
      ensures attempted == {} && lastErr == None && lastSelected == None
    {
      attempted, lastErr, lastSelected := {}, None, None;
    }

    method SelectProvider(req: Request, turn: Turn) returns (r: Selection)
      modifies this`attempted
      ensures r == SelectAt(req, turn, old(attempted))
      ensures attempted == old(attempted) + if r.Selected? then {r.provider.id} else {}
    {
      r := Select(BuildIndex(turn.providers), req.model, CapabilityOf(req.kind), attempted, turn.draw);
      if r.Selected? {
        attempted := attempted + {r.provider.id};
      }
    }
  }

  method Forward(req: Request, selected: Provider, reply: Reply, room: nat) returns (exit: seq<Event>, lost: bool)
    requires reply.Response?
    ensures exit == ForwardExit(req, selected, reply, room)
    ensures lost <==> room < |Flat(reply.chunks)|
  {
    var w := new ClientConn(room);
    var body := new UpstreamBody(reply.chunks, reply.endsWithData, reply.broken);
    var tracker := new ResponseCommitTracker();
    var _ := CopyUpstreamResponse(w, body, reply.status, tracker);
    var statusCode := if tracker.statusCode == 0 then reply.status else tracker.statusCode;
    exit := [Status(tracker.statusCode, reply.cacheState), Body(w.delivered),
             UsageRecorded(UsageRecord(
               req.model, Some(selected), CapabilityOf(req.kind), OutcomeOf(statusCode), statusCode, reply.status,
               reply.cacheState, "", req.finishedAt))];
    lost := w.lost;
  }

  // A response was forwarded that the client could not take whole.
  ghost predicate ClientLost(turns: seq<Turn>, room: nat, log: seq<Event>) {
    exists n: nat ::
      0 < n <= |turns| && n < |log| && log[n].Status? && turns[n - 1].reply.Response?
      && room < |Flat(turns[n - 1].reply.chunks)|
  }

  method RelayOpenAICompatible(req: Request, maxRetries: int, turns: seq<Turn>, room: nat)
    returns (log: seq<Event>, lost: bool)
    requires |turns| > maxRetries
    ensures Relayed(req, maxRetries, turns, room, log)
    ensures lost <==> ClientLost(turns, room, log)
  {
    hide Ids, LastProvider, RelayedIn, ReplayableBody, SelectAt;
    if !req.supportedFormat {
      return FailureExit(req, None, 500, "unsupported_relay_format", NoMessage), false;
    }
    log := [];
    var state := new RelayAttemptState();
    var attempt := 0;
    NothingTried(req, turns);
    while attempt <= maxRetries
      invariant 0 <= attempt == |log| <= (if maxRetries < 0 then 0 else maxRetries + 1)
      invariant Tried(req, turns, log, attempt)
      invariant forall i :: 0 <= i < attempt ==> Retryable(turns[i].reply)
      invariant state.attempted == Ids(log) && state.lastSelected == LastProvider(log, attempt)
      invariant attempt > 0 ==> state.attempted != {} && state.lastErr == Some(LastError(turns, attempt))
      invariant attempt == 0 ==> state.attempted == {} && state.lastErr == None
    {
      var turn := turns[attempt];
      assert log[..attempt] == log;
      var selection := state.SelectProvider(req, turn);
      if !selection.Selected? {
        var exit;
        if selection.Panicked? {
          exit := [Aborted];
        } else if state.attempted != {} && state.lastErr.Some? {
          exit := FailureExit(req, state.lastSelected, 502, "upstream_error", state.lastErr.value);
        } else {
          exit := FailureExit(req, None, 503, "model_not_found", Unselected(selection));
        }
        UnselectedExit(req, maxRetries, turns, room, log, exit);
        NothingForwarded(req, turns, room, log, exit);
        return log + exit, false;
      }
      var provider := selection.provider;
      state.lastSelected := Some(provider);
      TriedOne(req, turns, log, provider);
      log := log + [Attempt(provider, EncodeFor(ReplayableBody(req.fields), provider, req.model))];
      if turn.reply.SendError? || ShouldRetry(turn.reply.status) {
        state.lastErr := Some(ErrorOf(turn.reply));
        assert Retryable(turn.reply);
        attempt := attempt + 1;
        assert LastError(turns, attempt) == ErrorOf(turn.reply);
        continue;
      }
      var exit, gone := Forward(req, provider, turn.reply, room);
      assert !Retryable(turn.reply);
      ForwardedExit(req, maxRetries, turns, room, log, exit);
      OneForwarded(req, turns, room, log, exit);
      return log + exit, gone;
    }
    var message := if state.lastErr.Some? then state.lastErr.value else NoMessage;
    var exit := FailureExit(req, state.lastSelected, 502, "upstream_error", message);
    ExhaustedExit(req, maxRetries, turns, room, log, exit);
    NothingForwarded(req, turns, room, log, exit);
    return log + exit, false;
  }

  lemma NothingForwarded(req: Request, turns: seq<Turn>, room: nat, log: seq<Event>, exit: seq<Event>)
    requires Tried(req, turns, log, |log|) && forall i :: 0 <= i < |exit| ==> !exit[i].Status?
    ensures !ClientLost(turns, room, log + exit)
  {
    hide SelectAt, Ids, EncodeFor, ReplayableBody, Flat;
    forall i | 0 <= i < |log| ensures log[i].Attempt? {
      assert TriedAt(req, turns, log, i);
    }
  }

  lemma OneForwarded(req: Request, turns: seq<Turn>, room: nat, log: seq<Event>, exit: seq<Event>)
    requires 0 < |log| <= |turns| && Tried(req, turns, log, |log|) && turns[|log| - 1].reply.Response?
    requires |exit| == 3 && exit[0].Status? && !exit[1].Status? && !exit[2].Status?
    ensures ClientLost(turns, room, log + exit) <==> room < |Flat(turns[|log| - 1].reply.chunks)|
  {
    hide SelectAt, Ids, EncodeFor, ReplayableBody, Flat;
    forall i | 0 <= i < |log| ensures log[i].Attempt? {
      assert TriedAt(req, turns, log, i);
    }
    assert (log + exit)[|log|] == exit[0];
  }

  lemma NothingTried(req: Request, turns: seq<Turn>)
    ensures Tried(req, turns, [], 0) && Ids([]) == {} && LastProvider([], 0) == None && LastError(turns, 0) == NoMessage
  {
  }

  lemma TriedOne(req: Request, turns: seq<Turn>, log: seq<Event>, p: Provider)
    requires |log| < |turns| && Tried(req, turns, log, |log|)
    requires SelectAt(req, turns[|log|], Ids(log)) == Selected(p)
    ensures var more := log + [Attempt(p, EncodeFor(ReplayableBody(req.fields), p, req.model))];
            Tried(req, turns, more, |more|) && Ids(more) == Ids(log) + {p.id}
            && LastProvider(more, |more|) == Some(p)
  {
    hide SelectAt, EncodeFor, ReplayableBody;
    var e := Attempt(p, EncodeFor(ReplayableBody(req.fields), p, req.model));
    var more := log + [e];
    forall i | 0 <= i < |more| ensures TriedAt(req, turns, more, i) {
      assert more[..i] == log[..i];
      if i < |log| {
        assert TriedAt(req, turns, log, i);
      } else {
        assert log[..i] == log;
      }
    }
    assert forall x :: x in more <==> x in log || x == e;
    assert Ids(more) == Ids(log) + {p.id};
  }

  lemma TriedKeeps(req: Request, turns: seq<Turn>, log: seq<Event>, exit: seq<Event>)
    requires Tried(req, turns, log, |log|)
    ensures Tried(req, turns, log + exit, |log|)
    ensures (log + exit)[..|log|] == log && (log + exit)[|log|..] == exit
    ensures LastProvider(log + exit, |log|) == LastProvider(log, |log|)
  {
    hide SelectAt, EncodeFor, ReplayableBody;
    forall i | 0 <= i < |log| ensures TriedAt(req, turns, log + exit, i) {
      assert TriedAt(req, turns, log, i);
      assert (log + exit)[..i] == log[..i];
    }
  }

  lemma UnselectedExit(req: Request, maxRetries: int, turns: seq<Turn>, room: nat, log: seq<Event>, exit: seq<Event>)
    requires Tried(req, turns, log, |log|) && |log| <= maxRetries < |turns|
    requires forall i :: 0 <= i < |log| ==> Retryable(turns[i].reply)
    requires !SelectAt(req, turns[|log|], Ids(log)).Selected?
    requires var why := SelectAt(req, turns[|log|], Ids(log));
             exit == if why.Panicked? then [Aborted]
                     else if |log| > 0 then
                       FailureExit(req, LastProvider(log, |log|), 502, "upstream_error", LastError(turns, |log|))
                     else FailureExit(req, None, 503, "model_not_found", Unselected(why))
    ensures RelayedIn(req, maxRetries, turns, room, log + exit, |log|)
  {
    TriedKeeps(req, turns, log, exit);
  }

  lemma ForwardedExit(req: Request, maxRetries: int, turns: seq<Turn>, room: nat, log: seq<Event>, exit: seq<Event>)
    requires 0 < |log| <= maxRetries + 1 && |log| <= |turns| && Tried(req, turns, log, |log|)
    requires forall i :: 0 <= i < |log| - 1 ==> Retryable(turns[i].reply)
    requires !Retryable(turns[|log| - 1].reply) && turns[|log| - 1].reply.Response?
    requires LastProvider(log, |log|).Some?
    requires exit == ForwardExit(req, LastProvider(log, |log|).value, turns[|log| - 1].reply, room)
    ensures RelayedIn(req, maxRetries, turns, room, log + exit, |log|)
  {
    TriedKeeps(req, turns, log, exit);
  }

  lemma ExhaustedExit(req: Request, maxRetries: int, turns: seq<Turn>, room: nat, log: seq<Event>, exit: seq<Event>)
    requires |log| == (if maxRetries < 0 then 0 else maxRetries + 1) && |log| <= |turns|
    requires Tried(req, turns, log, |log|)
    requires forall i :: 0 <= i < |log| ==> Retryable(turns[i].reply)
    requires exit == FailureExit(req, LastProvider(log, |log|), 502, "upstream_error", LastError(turns, |log|))
    ensures RelayedIn(req, maxRetries, turns, room, log + exit, |log|)
  {
    TriedKeeps(req, turns, log, exit);
  }
}
