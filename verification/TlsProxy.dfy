/** deploy/console-tls-proxy.ts: what reaches the console of a client's body, when a request is sent again, and what a
    Realtime socket queues while its upstream connects. Every handler runs to its next await without another one in
    between; any number of requests and sockets interleave at those. */
module TlsProxy {
  import opened Prelude

  type Bytes = seq<bv8>

  const BUFFERED := 0x10_0000
  const WAITING_REQUESTS_MAX := 256
  const WAITING_SOCKETS_MAX := 64
  const QUEUE_MAX := 64
  const SOCKET_QUEUE_BYTES := 0x10_0000

  // ------------------------------------------------------------ bodies

  lemma {:induction false} ConcatPrefix(chunks: seq<Bytes>, n: nat)
    requires n <= |chunks|
    ensures Concat(chunks[..n]) <= Concat(chunks)
    decreases |chunks|
  {
    if n > 0 {
      ConcatPrefix(chunks[1..], n - 1);
      assert chunks[..n][1..] == chunks[1..][..n - 1];
    }
  }

  lemma OneMoreChunk(chunks: seq<Bytes>, n: nat)
    requires n < |chunks|
    ensures Concat(chunks[..n + 1]) == Concat(chunks[..n]) + chunks[n]
  {
    ConcatMore(chunks[..n], chunks[n]);
    assert chunks[..n] + [chunks[n]] == chunks[..n + 1];
  }

  datatype StreamState = Flowing | Closed | Errored

  /** A body too large to hold: what arrived is passed on, then each chunk as it comes, until the limit would be passed. */
  class Upload {
    const chunks: seq<Bytes>     // what the client sends, in pieces
    const limit: nat
    var at: nat
    var size: nat
    var passed: Bytes
    var state: StreamState
    var exceeded: bool

    ghost predicate Valid()
      reads this
    {
      && at <= |chunks| && size == |Concat(chunks[..at])| && (exceeded ==> at > 0 && size > limit)
      && passed == (if exceeded then Concat(chunks[..at - 1]) else Concat(chunks[..at]))
      && |passed| <= limit
      && (exceeded <==> state.Errored?)
      && (state.Closed? ==> at == |chunks|)
    }

    constructor (chunks: seq<Bytes>, at: nat, limit: nat)
      requires at <= |chunks| && |Concat(chunks[..at])| <= limit
      ensures Valid() && this.chunks == chunks && this.limit == limit && this.at == at && state.Flowing?
    {
      this.chunks, this.limit, this.at := chunks, limit, at;
      size, passed := |Concat(chunks[..at])|, Concat(chunks[..at]);
      state, exceeded := Flowing, false;
    }

    method Pull()
      requires Valid() && state.Flowing?
      modifies this
      ensures Valid() && at == (if old(at) == |chunks| then old(at) else old(at) + 1)
      ensures if old(at) == |chunks| then state.Closed? && passed == old(passed)
              else if |old(passed) + chunks[old(at)]| > limit then exceeded && passed == old(passed)
              else state.Flowing? && passed == old(passed) + chunks[old(at)]
    {
      if at == |chunks| {
        state := Closed;
        return;
      }
      OneMoreChunk(chunks, at);
      var next := chunks[at];
      at, size := at + 1, size + |next|;
      if size > limit {
        exceeded, state := true, Errored;
        return;
      }
      passed := passed + next;
    }
  }

  /** However long it is read: at most the limit is passed on, always a prefix of what the client sent; a stream that
      was closed passed all of it, and one that failed was over the limit. */
  method PassesAPrefix(upload: Upload, pulls: nat)
    requires upload.Valid()
    modifies upload
    ensures upload.Valid() && |upload.passed| <= upload.limit && upload.passed <= Concat(upload.chunks)
    ensures upload.state.Closed? ==> upload.passed == Concat(upload.chunks)
    ensures upload.state.Errored? ==> |Concat(upload.chunks)| > upload.limit
    ensures pulls > |upload.chunks| ==> !upload.state.Flowing?
  {
    var i := 0;
    while i < pulls && upload.state.Flowing?
      invariant upload.Valid() && (upload.state.Flowing? ==> i <= upload.at)
    {
      upload.Pull();
      i := i + 1;
    }
    var chunks, at := upload.chunks, upload.at;
    assert chunks[..|chunks|] == chunks;
    ConcatPrefix(chunks, at);
    if upload.exceeded { ConcatPrefix(chunks, at - 1); }
  }

  datatype Body = NoBody | Whole(bytes: Bytes) | Streamed(at: nat)

  /** `readBoundedBody`: none for GET and HEAD; the whole body up to a MiB; a stream from there on; or a refusal as soon
      as the limit is passed. Chunks without a value are skipped. */
  method ReadBoundedBody(bodiless: bool, chunks: seq<Bytes>, limit: nat) returns (body: Body, tooLarge: bool)
    ensures bodiless ==> !tooLarge && body.NoBody?
    ensures !bodiless && |Concat(chunks)| <= limit && |Concat(chunks)| <= 0x10_0000 ==> !tooLarge && body == Whole(Concat(chunks))
    ensures tooLarge ==> body.NoBody? && |Concat(chunks)| > limit
    ensures body.Whole? ==> body.bytes == Concat(chunks) && |body.bytes| <= limit && |body.bytes| <= 0x10_0000
    ensures body.Streamed? ==> body.at <= |chunks| && 0x10_0000 < |Concat(chunks[..body.at])| <= limit
    ensures !bodiless && !tooLarge ==> !body.NoBody?
  {
    tooLarge := false;
    if bodiless { return NoBody, false; }
    var size, held: Bytes := 0, [];
    assert chunks[..0] == [];
    for i := 0 to |chunks|
      invariant held == Concat(chunks[..i]) && size == |held| && size <= limit && size <= BUFFERED
    {
      OneMoreChunk(chunks, i);
      ConcatPrefix(chunks, i + 1);
      size := size + |chunks[i]|;
      if size > limit { return NoBody, true; }
      held := held + chunks[i];
      if size > BUFFERED { return Streamed(i + 1), false; }
    }
    assert chunks[..|chunks|] == chunks;
    body := Whole(held);
  }

  /** What the console got of a body, from the client's pieces to the end of the forwarding or `pulls` further pieces:
      at most the limit, and a prefix; the whole once the stream is closed. A body is cut or refused only over the limit. */
  method ForwardBody(bodiless: bool, chunks: seq<Bytes>, limit: nat, pulls: nat) returns (got: Bytes, state: StreamState)
    ensures |got| <= limit && got <= Concat(chunks)
    ensures state.Closed? ==> got == if bodiless then [] else Concat(chunks)
    ensures state.Errored? ==> !bodiless && |Concat(chunks)| > limit
    ensures pulls > |chunks| ==> (state.Closed? <==> bodiless || |Concat(chunks)| <= limit)
    ensures bodiless || |Concat(chunks)| <= 0x10_0000 ==> !state.Flowing?
  {
    var body, tooLarge := ReadBoundedBody(bodiless, chunks, limit);
    if tooLarge { return [], Errored; }
    match body {
      case NoBody => got, state := [], Closed;
      case Whole(bytes) => got, state := bytes, Closed;
      case Streamed(at) =>
        ConcatPrefix(chunks, at);
        var upload := new Upload(chunks, at, limit);
        PassesAPrefix(upload, pulls);
        got, state := upload.passed, upload.state;
    }
  }

  // ------------------------------------------------------------ retries

  function Doubled(attempt: nat): nat {
    if attempt == 0 then 100 else 2 * Doubled(attempt - 1)
  }

  /** The next wait before a retry, or none once the window would pass. */
  function NextDelay(attempt: nat, deadline: int, now: int): Option<nat> {
    var delay := if Doubled(attempt) < 1000 then Doubled(attempt) else 1000;
    if now + delay < deadline then Some(delay) else None
  }

  lemma {:induction false} DoubledGrows(attempt: nat)
    ensures Doubled(attempt) >= 100 && (attempt >= 4 ==> Doubled(attempt) >= 1600)
    decreases attempt
  {
    if attempt > 0 { DoubledGrows(attempt - 1); }
    if attempt == 4 { assert Doubled(1) == 200 && Doubled(2) == 400 && Doubled(3) == 800; }
  }

  /** Waits of 100, 200, 400 and 800 ms, then of a second, each ending inside the window. */
  lemma DelaysGrowToASecond(attempt: nat, deadline: int, now: int)
    ensures NextDelay(attempt, deadline, now).Some? ==>
              var d := NextDelay(attempt, deadline, now).value;
              100 <= d <= 1000 && now + d < deadline && d == (if attempt == 0 then 100 else if attempt == 1 then 200
                                                              else if attempt == 2 then 400 else if attempt == 3 then 800 else 1000)
    ensures NextDelay(attempt, deadline, now).None? ==> now + 1000 >= deadline
  {
    DoubledGrows(attempt);
    assert Doubled(1) == 200;
    assert Doubled(2) == 2 * Doubled(1);
    assert Doubled(3) == 2 * Doubled(2);
  }

  datatype Stage = Fetching | Pausing | Ended

  /** One forwarded request: how often it was sent, and how many of those sends may have reached the console, each counted
      when it is answered or fails. */
  datatype Request = Request(streamed: bool, deadline: int, retries: nat, sends: nat, reached: nat, waiting: bool, stage: Stage)

  function WaitingOf(requests: map<nat, Request>): set<nat> {
    set id | id in requests && requests[id].waiting
  }

  /** A request with a streamed body is sent once, any request reaches the console at most once, and none that is still
      tried again has reached it. */
  predicate SentSafely(r: Request) {
    && r.sends == r.retries + 1 && (r.streamed ==> r.sends == 1 && !r.waiting)
    && r.reached <= 1 && (!r.stage.Ended? ==> r.reached == 0)
    && (r.stage.Ended? ==> !r.waiting) && (r.stage.Pausing? ==> r.waiting)
  }

  class Requests {
    const window: nat
    var waitingRequests: nat
    var requests: map<nat, Request>

    ghost predicate Valid()
      reads this
    {
      && waitingRequests == |WaitingOf(requests)| <= WAITING_REQUESTS_MAX
      && forall id :: id in requests ==> SentSafely(requests[id])
    }

    constructor (window: nat)
      ensures Valid() && requests == map[] && this.window == window
    {
      this.window := window;
      waitingRequests, requests := 0, map[];
    }

    /** The first send. */
    method Arrive(id: nat, streamed: bool, now: int)
      requires Valid() && id !in requests
      modifies `requests
      ensures Valid() && requests == old(requests)[id := Request(streamed, now + window, 0, 1, 0, false, Fetching)]
    {
      requests := requests[id := Request(streamed, now + window, 0, 1, 0, false, Fetching)];
      assert WaitingOf(requests) == WaitingOf(old(requests));
    }

    /** The request leaves `forwardWithRetry`, and its place among the waiting ones with it; `more` of its sends may
        have reached the console since it was last counted. */
    method Leave(id: nat, more: nat)
      requires Valid() && id in requests && !requests[id].stage.Ended? && more <= 1
      modifies this
      ensures Valid()
      ensures var r := old(requests)[id];
              requests == old(requests)[id := r.(stage := Ended, waiting := false, reached := r.reached + more)]
    {
      var r := requests[id];
      requests := requests[id := r.(stage := Ended, waiting := false, reached := r.reached + more)];
      assert WaitingOf(requests) == WaitingOf(old(requests)) - {id};
      if r.waiting { waitingRequests := waitingRequests - 1; }
    }

    method Answered(id: nat)
      requires Valid() && id in requests && requests[id].stage.Fetching?
      modifies this
      ensures Valid()
      ensures var r := old(requests)[id];
              requests == old(requests)[id := r.(stage := Ended, waiting := false, reached := r.reached + 1)]
    {
      Leave(id, 1);
    }

    /** The request takes its place among the waiting ones, once; none of its sends may have reached the console. */
    method Wait(id: nat, more: nat)
      requires Valid() && id in requests && requests[id].stage.Fetching? && !requests[id].streamed && more == 0
      requires requests[id].waiting || waitingRequests < WAITING_REQUESTS_MAX
      modifies this
      ensures Valid()
      ensures var r := old(requests)[id];
              requests == old(requests)[id := r.(stage := Pausing, waiting := true, reached := r.reached + more)]
    {
      var r := requests[id];
      requests := requests[id := r.(stage := Pausing, waiting := true, reached := r.reached + more)];
      assert WaitingOf(requests) == WaitingOf(old(requests)) + {id};
      if !r.waiting { waitingRequests := waitingRequests + 1; }
    }

    /** A send failed, and may have reached the console unless its connection was refused. The request waits to be sent
        again only while the connection was refused, the body is buffered, the window lasts, and it waits already or fewer
        than the most do. */
    method Failed(id: nat, refused: bool, now: int) returns (again: bool)
      requires Valid() && id in requests && requests[id].stage.Fetching?
      modifies this
      ensures Valid()
      ensures var r := old(requests)[id];
              && (again <==> refused && !r.streamed && NextDelay(r.retries, r.deadline, now).Some?
                             && (r.waiting || old(waitingRequests) < WAITING_REQUESTS_MAX))
              && requests == old(requests)[id := r.(stage := if again then Pausing else Ended, waiting := again,
                                                    reached := r.reached + if refused then 0 else 1)]
    {
      var r := requests[id];
      var delay := NextDelay(r.retries, r.deadline, now);
      var more := if refused then 0 else 1;
      if !refused || r.streamed || delay.None? || (!r.waiting && waitingRequests >= WAITING_REQUESTS_MAX) {
        Leave(id, more);
        return false;
      }
      Wait(id, more);
      again := true;
    }

    /** The wait is over: the client went away, or the request is sent again. */
    method Resumed(id: nat, clientGone: bool)
      requires Valid() && id in requests && requests[id].stage.Pausing?
      modifies this
      ensures Valid()
      ensures var r := old(requests)[id];
              requests == old(requests)[id := if clientGone then r.(stage := Ended, waiting := false)
                                              else r.(stage := Fetching, retries := r.retries + 1, sends := r.sends + 1)]
    {
      if clientGone {
        Leave(id, 0);
      } else {
        var r := requests[id];
        requests := requests[id := r.(stage := Fetching, retries := r.retries + 1, sends := r.sends + 1)];
        assert WaitingOf(requests) == WaitingOf(old(requests));
      }
    }
  }

  // ------------------------------------------------------------ sockets

  datatype Line = Connecting | Retrying | Open | Settled

  /** One Realtime socket: what it took from the client, what it sent on, and what it holds back meanwhile. */
  datatype Socket = Socket(line: Line, deadline: int, retries: nat, waiting: bool, closed: bool,
                           queue: seq<Bytes>, queued: nat, taken: seq<Bytes>, delivered: seq<Bytes>)

  function SizeOf(queue: seq<Bytes>): nat {
    if queue == [] then 0 else SizeOf(queue[..|queue| - 1]) + |queue[|queue| - 1]|
  }

  /** A message taken: delivered at once on an open line, else behind what is queued. */
  ghost function Taken(s: Socket, message: Bytes): Socket {
    var taken := s.(taken := s.taken + [message]);
    if s.line.Open? then taken.(delivered := s.delivered + [message])
    else taken.(queue := s.queue + [message], queued := s.queued + |message|)
  }

  function WaitingSockets(sockets: map<nat, Socket>): set<nat> {
    set id | id in sockets && sockets[id].waiting
  }

  /** Nothing is lost, doubled or reordered: what was taken is what was delivered and then what is queued, within the
      queue's bounds; once the line is open nothing waits. */
  ghost predicate Carries(s: Socket) {
    && s.taken == s.delivered + s.queue && s.queued == SizeOf(s.queue)
    && |s.queue| <= QUEUE_MAX && s.queued <= SOCKET_QUEUE_BYTES
    && (s.line.Open? ==> s.queue == []) && (s.line.Connecting? || s.line.Retrying? ==> s.delivered == [])
    && (s.waiting ==> s.line.Connecting? || s.line.Retrying?) && (s.line.Retrying? ==> s.waiting)
  }

  class Sockets {
    const window: nat
    var waitingSockets: nat
    var sockets: map<nat, Socket>

    ghost predicate Valid()
      reads this
    {
      && waitingSockets == |WaitingSockets(sockets)| <= WAITING_SOCKETS_MAX
      && forall id :: id in sockets ==> Carries(sockets[id])
    }

    constructor (window: nat)
      ensures Valid() && sockets == map[] && this.window == window
    {
      this.window := window;
      waitingSockets, sockets := 0, map[];
    }

    method Opened(id: nat, now: int)
      requires Valid() && id !in sockets
      modifies `sockets
      ensures Valid() && sockets == old(sockets)[id := Socket(Connecting, now + window, 0, false, false, [], 0, [], [])]
    {
      sockets := sockets[id := Socket(Connecting, now + window, 0, false, false, [], 0, [], [])];
      assert WaitingSockets(sockets) == WaitingSockets(old(sockets));
    }

    /** The upstream opened: it is given what was queued, in order, before anything newer. */
    method UpstreamOpened(id: nat)
      requires Valid() && id in sockets && sockets[id].line.Connecting?
      modifies this
      ensures Valid()
      ensures var s := old(sockets)[id];
              sockets == old(sockets)[id := s.(line := Open, waiting := false, queue := [], queued := 0, delivered := s.queue)]
    {
      Unwait(id);
      var s := sockets[id];
      ghost var before := sockets;
      var open := s.(line := Open, queue := [], queued := 0, delivered := s.queue);
      assert s.delivered + s.queue == s.queue + [];
      sockets := sockets[id := open];
      assert WaitingSockets(sockets) == WaitingSockets(before);
    }

    method Unwait(id: nat)
      requires Valid() && id in sockets && sockets[id].line.Connecting?
      modifies this
      ensures Valid() && sockets == old(sockets)[id := old(sockets)[id].(waiting := false)]
    {
      if sockets[id].waiting { waitingSockets := waitingSockets - 1; }
      sockets := sockets[id := sockets[id].(waiting := false)];
      assert WaitingSockets(sockets) == WaitingSockets(old(sockets)) - {id};
    }

    /** The connect came to nothing, and the socket no longer waits for it. */
    method Settle(id: nat)
      requires Valid() && id in sockets && (sockets[id].line.Connecting? || sockets[id].line.Retrying?)
      modifies this
      ensures Valid() && sockets == old(sockets)[id := old(sockets)[id].(line := Settled, waiting := false)]
    {
      if sockets[id].waiting { waitingSockets := waitingSockets - 1; }
      sockets := sockets[id := sockets[id].(line := Settled, waiting := false)];
      assert WaitingSockets(sockets) == WaitingSockets(old(sockets)) - {id};
    }

    /** The upstream closed before it opened. The socket waits for another try only while its client is there, the
        connection was refused before the handshake, the window lasts, and it waits already or fewer than the most do. */
    method Refused(id: nat, failedToConnect: bool, now: int) returns (again: bool)
      requires Valid() && id in sockets && sockets[id].line.Connecting?
      modifies this
      ensures Valid()
      ensures var s := old(sockets)[id];
              && (again <==> !s.closed && failedToConnect && NextDelay(s.retries, s.deadline, now).Some?
                             && (s.waiting || old(waitingSockets) < WAITING_SOCKETS_MAX))
              && sockets == old(sockets)[id := if again then s.(line := Retrying, waiting := true) else s.(line := Settled, waiting := false)]
    {
      var s := sockets[id];
      var delay := if failedToConnect then NextDelay(s.retries, s.deadline, now) else None;
      if s.closed || delay.None? || (!s.waiting && waitingSockets >= WAITING_SOCKETS_MAX) {
        Settle(id);
        return false;
      }
      sockets := sockets[id := s.(line := Retrying, waiting := true)];
      assert WaitingSockets(sockets) == WaitingSockets(old(sockets)) + {id};
      if !s.waiting { waitingSockets := waitingSockets + 1; }
      again := true;
    }

    /** The wait is over. */
    method Retry(id: nat)
      requires Valid() && id in sockets && sockets[id].line.Retrying?
      modifies this
      ensures Valid()
      ensures var s := old(sockets)[id];
              sockets == old(sockets)[id := if s.closed then s.(line := Settled, waiting := false)
                                            else s.(line := Connecting, retries := s.retries + 1)]
    {
      if sockets[id].closed {
        Settle(id);
      } else {
        var s := sockets[id];
        sockets := sockets[id := s.(line := Connecting, retries := s.retries + 1)];
        assert WaitingSockets(sockets) == WaitingSockets(old(sockets));
      }
    }

    /** A message of the client: sent on an open line, queued before that within the bounds, else the socket is closed. */
    method Message(id: nat, message: Bytes) returns (refused: bool)
      requires Valid() && id in sockets
      modifies `sockets
      ensures Valid()
      ensures var s := old(sockets)[id];
              && (refused <==> !s.line.Open? && (|s.queue| >= 64 || s.queued + |message| > 0x10_0000))
              && sockets == old(sockets)[id := if refused then s else Taken(s, message)]
    {
      var s := sockets[id];
      refused := false;
      if s.line.Open? {
        assert s.taken + [message] == s.delivered + [message] + [];
        sockets := sockets[id := s.(taken := s.taken + [message], delivered := s.delivered + [message])];
      } else if |s.queue| >= QUEUE_MAX || s.queued + |message| > SOCKET_QUEUE_BYTES {
        refused := true;
      } else {
        assert (s.queue + [message])[..|s.queue|] == s.queue;
        assert s.taken + [message] == s.delivered + (s.queue + [message]);
        sockets := sockets[id := s.(queue := s.queue + [message], queued := s.queued + |message|, taken := s.taken + [message])];
      }
      assert WaitingSockets(sockets) == WaitingSockets(old(sockets));
    }

    method ClientCloses(id: nat)
      requires Valid() && id in sockets
      modifies `sockets
      ensures Valid() && sockets == old(sockets)[id := old(sockets)[id].(closed := true)]
    {
      sockets := sockets[id := sockets[id].(closed := true)];
      assert WaitingSockets(sockets) == WaitingSockets(old(sockets));
    }

    /** An open line closes. */
    method LineCloses(id: nat)
      requires Valid() && id in sockets && sockets[id].line.Open?
      modifies `sockets
      ensures Valid() && sockets == old(sockets)[id := old(sockets)[id].(line := Settled)]
    {
      sockets := sockets[id := sockets[id].(line := Settled)];
      assert WaitingSockets(sockets) == WaitingSockets(old(sockets));
    }
  }

  // ------------------------------------------------------------ any interleaving of handlers

  datatype RequestEvent =
    | Arrives(id: nat, streamed: bool, now: int)
    | Answers(id: nat)
    | Fails(id: nat, refused: bool, now: int)
    | Resumes(id: nat, clientGone: bool)

  ghost predicate EndedStay(before: map<nat, Request>, after: map<nat, Request>) {
    forall id :: id in before ==> id in after && before[id].sends <= after[id].sends
                                  && (before[id].stage.Ended? ==> after[id] == before[id])
  }

  /** What one event leaves of the request it is about, and of all others nothing else. An answer reaches the console,
      and so may a send that failed unless its connection was refused; only such a refused one is sent again. */
  ghost predicate RequestServed(window: nat, before: map<nat, Request>, e: RequestEvent, after: map<nat, Request>) {
    if e.Arrives? then
      after == if e.id in before then before else before[e.id := Request(e.streamed, e.now + window, 0, 1, 0, false, Fetching)]
    else if e.id !in before then after == before
    else
      var r := before[e.id];
      && e.id in after && after == before[e.id := after[e.id]]
      && match e {
           case Answers(id) => after[id] == if r.stage.Fetching? then r.(stage := Ended, waiting := false, reached := 1) else r
           case Fails(id, refused, now) =>
             if !r.stage.Fetching? then after[id] == r
             else if refused && !r.streamed && NextDelay(r.retries, r.deadline, now).Some? && (r.waiting || |WaitingOf(before)| < 256)
             then after[id] == r.(stage := Pausing, waiting := true)
             else after[id] == r.(stage := Ended, waiting := false, reached := if refused then 0 else 1)
           case Resumes(id, clientGone) =>
             if !r.stage.Pausing? then after[id] == r
             else if clientGone then after[id] == r.(stage := Ended, waiting := false)
             else after[id] == r.(stage := Fetching, retries := r.retries + 1, sends := r.sends + 1)
         }
  }

  lemma ServedStays(window: nat, before: map<nat, Request>, e: RequestEvent, after: map<nat, Request>)
    requires RequestServed(window, before, e, after)
    ensures EndedStay(before, after)
  {
  }

  lemma ServedGrows(window: nat, before: map<nat, Socket>, e: SocketEvent, after: map<nat, Socket>)
    requires SocketServed(window, before, e, after) && (e.id in before ==> Carries(before[e.id]))
    ensures Grown(before, after)
  {
  }

  /** Whatever events come, in whatever order, each is served as it comes: no request reaches the console twice, one with
      a streamed body is sent once, the waiting ones stay within their number, and a request that ended is never taken up
      again. */
  method AnyRequests(proxy: Requests, events: seq<RequestEvent>) returns (ghost trail: seq<map<nat, Request>>)
    requires proxy.Valid()
    modifies proxy
    ensures proxy.Valid() && EndedStay(old(proxy.requests), proxy.requests)
    ensures |trail| == |events| + 1 && trail[0] == old(proxy.requests) && trail[|events|] == proxy.requests
    ensures forall i :: 0 <= i < |events| ==> RequestServed(proxy.window, trail[i], events[i], trail[i + 1])
    ensures forall id :: id in proxy.requests ==>
              proxy.requests[id].reached <= 1 && (proxy.requests[id].streamed ==> proxy.requests[id].sends == 1)
    ensures |WaitingOf(proxy.requests)| <= 256
  {
    trail := [proxy.requests];
    for i := 0 to |events|
      invariant proxy.Valid() && EndedStay(old(proxy.requests), proxy.requests)
      invariant |trail| == i + 1 && trail[0] == old(proxy.requests) && trail[i] == proxy.requests
      invariant forall j :: 0 <= j < i ==> RequestServed(proxy.window, trail[j], events[j], trail[j + 1])
    {
      ghost var before := proxy.requests;
      HandleRequest(proxy, events[i]);
      ServedStays(proxy.window, before, events[i], proxy.requests);
      trail := trail + [proxy.requests];
    }
    assert forall id :: id in proxy.requests ==> SentSafely(proxy.requests[id]);
  }

  /** One event; one that cannot come now changes nothing. */
  method HandleRequest(proxy: Requests, event: RequestEvent)
    requires proxy.Valid()
    modifies proxy
    ensures proxy.Valid() && RequestServed(proxy.window, old(proxy.requests), event, proxy.requests)
  {
    if event.Arrives? {
      if event.id !in proxy.requests { proxy.Arrive(event.id, event.streamed, event.now); }
      return;
    }
    if event.id !in proxy.requests { return; }
    var stage := proxy.requests[event.id].stage;
    assert SentSafely(proxy.requests[event.id]);
    match event {
      case Answers(id) => if stage.Fetching? { proxy.Answered(id); }
      case Fails(id, refused, now) => if stage.Fetching? { var again := proxy.Failed(id, refused, now); }
      case Resumes(id, clientGone) => if stage.Pausing? { proxy.Resumed(id, clientGone); }
      case Arrives(_, _, _) =>
    }
  }

  datatype SocketEvent =
    | Opens(id: nat, now: int)
    | UpstreamOpens(id: nat)
    | IsRefused(id: nat, failedToConnect: bool, now: int)
    | Retries(id: nat)
    | Sends(id: nat, message: Bytes)
    | Closes(id: nat)
    | LineEnds(id: nat)

  ghost predicate Grown(before: map<nat, Socket>, after: map<nat, Socket>) {
    forall id :: id in before ==>
      id in after && before[id].taken <= after[id].taken && before[id].delivered <= after[id].delivered
  }

  /** What one event leaves of the socket it is about, and of all others nothing else. */
  ghost predicate SocketServed(window: nat, before: map<nat, Socket>, e: SocketEvent, after: map<nat, Socket>) {
    if e.Opens? then
      after == if e.id in before then before else before[e.id := Socket(Connecting, e.now + window, 0, false, false, [], 0, [], [])]
    else if e.id !in before then after == before
    else
      var s := before[e.id];
      && e.id in after && after == before[e.id := after[e.id]]
      && match e {
           case UpstreamOpens(id) =>
             after[id] == if s.line.Connecting? then s.(line := Open, waiting := false, queue := [], queued := 0, delivered := s.queue) else s
           case IsRefused(id, failedToConnect, now) =>
             if !s.line.Connecting? then after[id] == s
             else if !s.closed && failedToConnect && NextDelay(s.retries, s.deadline, now).Some? && (s.waiting || |WaitingSockets(before)| < 64)
             then after[id] == s.(line := Retrying, waiting := true)
             else after[id] == s.(line := Settled, waiting := false)
           case Retries(id) =>
             if !s.line.Retrying? then after[id] == s
             else after[id] == if s.closed then s.(line := Settled, waiting := false) else s.(line := Connecting, retries := s.retries + 1)
           case Sends(id, message) =>
             after[id] == if !s.line.Open? && (|s.queue| >= 64 || s.queued + |message| > 0x10_0000) then s else Taken(s, message)
           case Closes(id) => after[id] == s.(closed := true)
           case LineEnds(id) => after[id] == if s.line.Open? then s.(line := Settled) else s
         }
  }

  lemma DeliveredInOrder(proxy: Sockets)
    requires proxy.Valid()
    ensures |WaitingSockets(proxy.sockets)| <= 64
    ensures forall id :: id in proxy.sockets ==>
              proxy.sockets[id].delivered <= proxy.sockets[id].taken
              && (proxy.sockets[id].line.Open? ==> proxy.sockets[id].delivered == proxy.sockets[id].taken)
  {
    forall id | id in proxy.sockets
      ensures proxy.sockets[id].delivered <= proxy.sockets[id].taken
              && (proxy.sockets[id].line.Open? ==> proxy.sockets[id].delivered == proxy.sockets[id].taken)
    {
      assert Carries(proxy.sockets[id]);
    }
  }

  /** Whatever events come, in whatever order, each is served as it comes: on every socket what was delivered is never
      taken back or sent again, and is a prefix of what was taken; once its line is open, it is all of it. */
  method AnySockets(proxy: Sockets, events: seq<SocketEvent>) returns (ghost trail: seq<map<nat, Socket>>)
    requires proxy.Valid()
    modifies proxy
    ensures proxy.Valid() && Grown(old(proxy.sockets), proxy.sockets)
    ensures |trail| == |events| + 1 && trail[0] == old(proxy.sockets) && trail[|events|] == proxy.sockets
    ensures forall i :: 0 <= i < |events| ==> SocketServed(proxy.window, trail[i], events[i], trail[i + 1])
    ensures forall id :: id in proxy.sockets ==>
              proxy.sockets[id].delivered <= proxy.sockets[id].taken
              && (proxy.sockets[id].line.Open? ==> proxy.sockets[id].delivered == proxy.sockets[id].taken)
    ensures |WaitingSockets(proxy.sockets)| <= 64
  {
    trail := [proxy.sockets];
    for i := 0 to |events|
      invariant proxy.Valid() && Grown(old(proxy.sockets), proxy.sockets)
      invariant |trail| == i + 1 && trail[0] == old(proxy.sockets) && trail[i] == proxy.sockets
      invariant forall j :: 0 <= j < i ==> SocketServed(proxy.window, trail[j], events[j], trail[j + 1])
    {
      ghost var before := proxy.sockets;
      HandleSocket(proxy, events[i]);
      ServedGrows(proxy.window, before, events[i], proxy.sockets);
      trail := trail + [proxy.sockets];
    }
    DeliveredInOrder(proxy);
  }

  method HandleSocket(proxy: Sockets, event: SocketEvent)
    requires proxy.Valid()
    modifies proxy
    ensures proxy.Valid() && SocketServed(proxy.window, old(proxy.sockets), event, proxy.sockets)
    ensures event.id in old(proxy.sockets) ==> Carries(old(proxy.sockets)[event.id])
  {
    if event.Opens? {
      if event.id !in proxy.sockets { proxy.Opened(event.id, event.now); }
      return;
    }
    if event.id !in proxy.sockets { return; }
    var line := proxy.sockets[event.id].line;
    match event {
      case UpstreamOpens(id) => if line.Connecting? { proxy.UpstreamOpened(id); }
      case IsRefused(id, failed, now) => if line.Connecting? { var again := proxy.Refused(id, failed, now); }
      case Retries(id) => if line.Retrying? { proxy.Retry(id); }
      case Sends(id, message) => var refused := proxy.Message(id, message);
      case Closes(id) => proxy.ClientCloses(id);
      case LineEnds(id) => if line.Open? { proxy.LineCloses(id); }
      case Opens(_, _) =>
    }
  }
}
