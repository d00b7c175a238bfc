/**
 * The load-balancing broker (`LoadBalancerBroker`): a ROUTER socket towards
 * the faculties (frontend) and one towards the allocation servers (backend).
 * Idle servers wait in a FIFO queue; each request goes to the server at its
 * head, and a server re-enters the queue at the tail when it registers or
 * replies.  Messages are sequences of frames; what the broker sends is
 * returned instead of being written to a socket.
 */
module Broker {
  import opened Dicts
  import opened Wire
  import opened PyText

  /** The simulated distance given to a faculty: the sum of the code points
      of its name modulo 10, plus one.  It is recorded and never used to pick
      a server. */
  function Distance(name: string): (d: int)
    ensures 1 <= d <= 10
  {
    CodePointSum(name) % 10 + 1
  }

  /** What the broker remembers of a client address: the `facultad` value
      as the request carried it, its distance, the opaque creation time and
      the request count. */
  datatype ClientInfo = ClientInfo(faculty: Json, distance: int, firstSeen: string, requests: int)

  /** How a client's payload is accounted for. */
  datatype Admission =
    | Ignored                             // no counter changes
    | CountKnown                          // a known client: its counter and the pending count rise
    | Register(faculty: Json, name: string) // a new client is recorded first, then counted

  /** What `for c in v` hands to `ord(c)`: the characters of a string, the
      elements of a list or the keys of an object, each of which must be a
      one-character string; `None` where Python raises (a value that cannot
      be iterated, or an element that is not one character). */
  function Iterated(v: Json): (cs: Option<string>)
    ensures v.JStr? ==> cs == Some(v.s)
    ensures v.JArr? ==>
      (cs.Some? <==> forall i :: 0 <= i < |v.items| ==> v.items[i].JStr? && |v.items[i].s| == 1)
    ensures v.JArr? && cs.Some? ==>
      |cs.value| == |v.items| && forall i :: 0 <= i < |v.items| ==> v.items[i] == JStr([cs.value[i]])
    ensures v.JObj? ==> (cs.Some? <==> forall i :: 0 <= i < |v.members| ==> |v.members[i].key| == 1)
    ensures v.JObj? && cs.Some? ==>
      |cs.value| == |v.members| && forall i :: 0 <= i < |v.members| ==> v.members[i].key == [cs.value[i]]
    ensures v.JNull? || v.JBool? || v.JInt? ==> cs.None?
  {
    match v
    case JStr(s) => Some(s)
    case JArr(items) =>
      if forall i :: 0 <= i < |items| ==> items[i].JStr? && |items[i].s| == 1 then
        Some(seq(|items|, i requires 0 <= i < |items| && items[i].JStr? && |items[i].s| == 1 => items[i].s[0]))
      else None
    case JObj(members) =>
      if forall i :: 0 <= i < |members| ==> |members[i].key| == 1 then
        Some(seq(|members|, i requires 0 <= i < |members| && |members[i].key| == 1 => members[i].key[0]))
      else None
    case _ => None
  }

  /** The accounting rule of `handle_client_message`: a payload that is not
      JSON changes nothing; a known client is counted for any JSON payload
      (the increments come before the first use of the payload as an object);
      a new client is recorded only when the payload is an object whose
      `facultad`, if present, can be summed character by character, and its
      distance comes from those characters. */
  function AdmissionOf(d: Decoded, known: bool): (a: Admission)
    ensures a.CountKnown? <==> known && d.Parsed?
    ensures a.Register? <==>
      !known && d.Parsed? && d.value.JObj?
      && (Get(d.value.members, "facultad").None? || Iterated(Get(d.value.members, "facultad").value).Some?)
    ensures a.Register? && Get(d.value.members, "facultad").None? ==> a.faculty == JStr("") && a.name == ""
    ensures a.Register? && Get(d.value.members, "facultad").Some? ==>
      a.faculty == Get(d.value.members, "facultad").value && Some(a.name) == Iterated(a.faculty)
  {
    match d
    case Parsed(j) =>
      if known then CountKnown
      else if j.JObj? then
        match Member(j, "facultad")
        case None => Register(JStr(""), "")
        case Some(f) => if Iterated(f).Some? then Register(f, Iterated(f).value) else Ignored
      else Ignored
    case _ => Ignored
  }

  /** The message a server's reply becomes on its way to the client
      (`frames` holds at least the server address, the delimiter and the
      client address). */
  function ClientReply(codec: Codec, frames: seq<Frame>): (out: seq<Frame>)
    requires |frames| >= 3
  {
    var client, empty, rest := frames[2], frames[1], frames[3..];
    if |rest| == 0 then [client, empty]
    else
      match codec.decode(rest[|rest| - 1])
      case Parsed(_) => [client, empty] + rest
      case NotJson => [client, empty] + rest[..|rest| - 1] + [codec.encode(ErrorObject("Respuesta inválida del servidor"))]
      case NotText(detail) => [client, empty, codec.encode(ErrorObject("Error interno del broker: " + detail))]
  }

  /** A reply reaches the client addressed to it behind the server's
      delimiter; its payload frames pass unchanged when the last one is JSON,
      only the last one is replaced when it is text but not JSON, and with a
      codec that reads back the error objects it writes, the client always
      receives a final frame that is JSON. */
  lemma ClientReplyForwarding(codec: Codec, frames: seq<Frame>)
    requires |frames| >= 3
    ensures var out := ClientReply(codec, frames);
      var rest := frames[3..];
      && |out| >= 2 && out[0] == frames[2] && out[1] == frames[1]
      && (|rest| == 0 || codec.decode(rest[|rest| - 1]).Parsed? ==> out == [frames[2], frames[1]] + rest)
      && (|rest| > 0 && codec.decode(rest[|rest| - 1]).NotJson? ==>
            |out| == |frames| - 1 && out[2..|out| - 1] == rest[..|rest| - 1]
            && out[|out| - 1] == codec.encode(ErrorObject("Respuesta inválida del servidor")))
      && (ReadsErrors(codec) && |rest| > 0 ==> codec.decode(out[|out| - 1]).Parsed?)
  {
    var out := ClientReply(codec, frames);
    var rest := frames[3..];
    if |rest| > 0 && codec.decode(rest[|rest| - 1]).NotJson? {
      assert out[2..|out| - 1] == rest[..|rest| - 1];
    }
  }

  /** How a client message ended. */
  datatype ClientOutcome =
    | Forwarded(msg: seq<Frame>) // sent to the backend
    | TooFewFrames              // `frames[2]` raised `IndexError`
    | NoWorkers                 // `get_next_worker` raised

  /** `pop(0)` applied `n` times: the servers that `n` dispatches pick. */
  function Dispatches(q: seq<Frame>, n: nat): seq<Frame>
    requires n <= |q|
    decreases n
  {
    if n == 0 then [] else [q[0]] + Dispatches(q[1..], n - 1)
  }

  /** Dispatch is first in, first out: `n` dispatches pick the first `n`
      queued servers in their queue order. */
  lemma {:induction false} DispatchesInOrder(q: seq<Frame>, n: nat)
    requires n <= |q|
    ensures Dispatches(q, n) == q[..n]
    decreases n
  {
    if n > 0 {
      DispatchesInOrder(q[1..], n - 1);
      assert q[..n] == [q[0]] + q[1..][..n - 1];
    }
  }

  /** The four fields of the broker. */
  datatype BrokerState = BrokerState(available: seq<Frame>, workers: set<Frame>, clients: map<Frame, ClientInfo>, pending: int)

  /** `handle_worker_message` on state `s`: the state it leaves and the
      message it sends to the client, if any. */
  function WorkerStep(s: BrokerState, codec: Codec, frames: seq<Frame>): (BrokerState, Option<seq<Frame>>)
  {
    if |frames| == 0 then (s, None)
    else if |frames| < 3 then
      (s.(available := s.available + [frames[0]], workers := s.workers + {frames[0]}), None)
    else
      (s.(available := s.available + [frames[0]], pending := s.pending - (if frames[2] in s.clients then 1 else 0)),
       Some(ClientReply(codec, frames)))
  }

  /** `handle_client_message` on state `s`: the state it leaves and how the
      message ended. */
  function ClientStep(s: BrokerState, codec: Codec, frames: seq<Frame>, now: string): (BrokerState, ClientOutcome)
  {
    if |frames| < 3 then (s, TooFewFrames)
    else
      var client := frames[0];
      var a := AdmissionOf(codec.decode(frames[2]), client in s.clients);
      var clients := match a
        case Ignored => s.clients
        case CountKnown => s.clients[client := s.clients[client].(requests := s.clients[client].requests + 1)]
        case Register(f, name) => s.clients[client := ClientInfo(f, Distance(name), now, 1)];
      var pending := s.pending + (if a.Ignored? then 0 else 1);
      if |s.available| == 0 then (s.(clients := clients, pending := pending), NoWorkers)
      else (s.(available := s.available[1..], clients := clients, pending := pending),
            Forwarded([s.available[0], Empty] + frames))
  }

  /** A turn of the broker loop never hands a client message to
      `handle_client_message` without a server queued, so the message is
      forwarded whenever it has its three frames; the server it goes to is
      the oldest idle one, and it leaves the queue. */
  lemma ClientStepForwards(s: BrokerState, codec: Codec, frames: seq<Frame>, now: string)
    requires |s.available| > 0 && |frames| >= 3
    ensures var r := ClientStep(s, codec, frames, now);
      && r.1 == Forwarded([s.available[0], Empty] + frames)
      && r.0.available == s.available[1..] && r.0.workers == s.workers
      && r.0.pending == s.pending + (if AdmissionOf(codec.decode(frames[2]), frames[0] in s.clients).Ignored? then 0 else 1)
  {
  }

  class LoadBalancer {
    /** `available_workers`: idle server addresses, oldest first. */
    var available: seq<Frame>
    /** `workers`: every address that ever registered. */
    var workers: set<Frame>
    /** `clients`: what is known of each client address. */
    var clients: map<Frame, ClientInfo>
    /** `client_requests_count`. */
    var pending: int

    function Snapshot(): BrokerState
      reads this
    {
      BrokerState(available, workers, clients, pending)
    }

    constructor ()
      ensures available == [] && workers == {} && clients == map[] && pending == 0
    {
      available := [];
      workers := {};
      clients := map[];
      pending := 0;
    }

    /** `handle_worker_message`.  A message of fewer than three frames is a
        registration: the address is queued and recorded, with no check that
        it is queued already.  Any other message is a reply: the server is
        queued again, the pending count falls when the client is known, and
        the reply is passed on to the client. */
    method HandleWorkerMessage(codec: Codec, frames: seq<Frame>) returns (toClient: Option<seq<Frame>>)
      modifies this
      ensures (Snapshot(), toClient) == WorkerStep(old(Snapshot()), codec, frames)
      ensures clients == old(clients)
      ensures |frames| == 0 ==>
        available == old(available) && workers == old(workers) && pending == old(pending) && toClient == None
      ensures 0 < |frames| < 3 ==>
        available == old(available) + [frames[0]] && workers == old(workers) + {frames[0]}
        && pending == old(pending) && toClient == None
      ensures |frames| >= 3 ==>
        available == old(available) + [frames[0]] && workers == old(workers)
        && pending == old(pending) - (if frames[2] in old(clients) then 1 else 0)
        && toClient == Some(ClientReply(codec, frames))
    {
      if |frames| == 0 {
        return None;
      }
      if |frames| < 3 {
        available := available + [frames[0]];
        workers := workers + {frames[0]};
        return None;
      }
      available := available + [frames[0]];
      if frames[2] in clients {
        pending := pending - 1;
      }
      toClient := Some(ClientReply(codec, frames));
    }

    /** `get_next_worker`: the head of the queue, or `None` where Python
        raises. */
    method NextWorker() returns (w: Option<Frame>)
      modifies this
      ensures workers == old(workers) && clients == old(clients) && pending == old(pending)
      ensures |old(available)| == 0 ==> w == None && available == old(available)
      ensures |old(available)| > 0 ==> w == Some(old(available)[0]) && available == old(available)[1..]
    {
      if |available| == 0 {
        return None;
      }
      w := Some(available[0]);
      available := available[1..];
    }

    /** `handle_client_message`.  The payload is accounted for by
        `AdmissionOf`; the message then goes, unchanged and whatever its
        payload, to the server at the head of the queue.  With no server
        queued the accounting is kept and nothing is sent. */
    method HandleClientMessage(codec: Codec, frames: seq<Frame>, now: string) returns (outcome: ClientOutcome)
      modifies this
      ensures (Snapshot(), outcome) == ClientStep(old(Snapshot()), codec, frames, now)
      ensures workers == old(workers)
      ensures |frames| < 3 ==>
        outcome == TooFewFrames && available == old(available) && clients == old(clients) && pending == old(pending)
      ensures |frames| >= 3 ==>
        var client := frames[0];
        var a := AdmissionOf(codec.decode(frames[2]), client in old(clients));
        && pending == old(pending) + (if a.Ignored? then 0 else 1)
        && clients == (match a
                       case Ignored => old(clients)
                       case CountKnown => old(clients)[client := old(clients)[client].(requests := old(clients)[client].requests + 1)]
                       case Register(f, name) => old(clients)[client := ClientInfo(f, Distance(name), now, 1)])
        && (|old(available)| == 0 ==> outcome == NoWorkers && available == old(available))
        && (|old(available)| > 0 ==>
              outcome == Forwarded([old(available)[0], Empty] + frames) && available == old(available)[1..])
    {
      if |frames| < 3 {
        return TooFewFrames;
      }
      var client := frames[0];
      ghost var s0 := Snapshot();
      var a := AdmissionOf(codec.decode(frames[2]), client in clients);
      match a {
        case Ignored =>
        case CountKnown =>
          clients := clients[client := clients[client].(requests := clients[client].requests + 1)];
          pending := pending + 1;
        case Register(f, name) =>
          clients := clients[client := ClientInfo(f, Distance(name), now, 0)];
          clients := clients[client := clients[client].(requests := clients[client].requests + 1)];
          pending := pending + 1;
          assert clients == s0.clients[client := ClientInfo(f, Distance(name), now, 1)];
      }
      ghost var s1 := Snapshot();
      assert s1 == ClientStep(s0, codec, frames, now).0.(available := s0.available);
      var w := NextWorker();
      if w.None? {
        return NoWorkers;
      }
      outcome := Forwarded([w.value, Empty] + frames);
    }

    /** One turn of `broker_loop`: a ready backend message is handled first;
        a ready frontend message is taken only while a server is queued, so a
        message taken is never refused for want of a server.  `None` in
        `handled` means the frontend message was left waiting. */
    method Step(codec: Codec, backend: Option<seq<Frame>>, frontend: Option<seq<Frame>>, now: string)
      returns (toClient: Option<seq<Frame>>, handled: Option<ClientOutcome>)
      modifies this
      ensures handled.Some? ==> frontend.Some? && handled.value != NoWorkers
      ensures frontend.Some? && handled.None? ==> |available| == 0
      ensures frontend.Some? && |frontend.value| >= 3 && handled.Some? ==> handled.value.Forwarded?
      ensures backend.None? ==> toClient == None
      ensures var w := if backend.Some? then WorkerStep(old(Snapshot()), codec, backend.value) else (old(Snapshot()), None);
        && toClient == w.1
        && (frontend.Some? && |w.0.available| > 0 ==>
              (Snapshot(), handled) == (ClientStep(w.0, codec, frontend.value, now).0, Some(ClientStep(w.0, codec, frontend.value, now).1)))
        && (frontend.None? || |w.0.available| == 0 ==> Snapshot() == w.0 && handled == None)
    {
      toClient := None;
      handled := None;
      if backend.Some? {
        toClient := HandleWorkerMessage(codec, backend.value);
      }
      if frontend.Some? && |available| > 0 {
        var outcome := HandleClientMessage(codec, frontend.value, now);
        handled := Some(outcome);
      }
    }
  }
}
