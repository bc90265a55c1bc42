/** The state of the event stream proxy as values: what each handler does to it, stated
    without the loops of the code (`ProxyService` holds those), and the log of everything
    that crosses the process boundary. */
module ProxyState {
  import opened Js

  type ClientId = string
  type SocketId = nat
  type Namespace = string

  /** A batch as pushed by an upstream socket into the promise chain. */
  datatype Batch = Batch(namespace: Namespace, batchNumber: Option<int>)

  /** A batch message handed to a client; its payload is the concern of `Enrichment`. */
  datatype Message = Message(id: string, namespace: Namespace, batchNumber: Option<int>)

  /** Everything visible from outside, in order. `ClientAcked` records only acks that hit an
      in-flight message; `Gone` closes the processing of a client disconnect. */
  datatype Obs =
    | Opened(socket: SocketId, namespace: Namespace)
    | Arrived(batch: Batch)
    | Sent(client: ClientId, msg: Message)
    | ClientAcked(client: ClientId, msg: Message)
    | UpAck(client: ClientId, socket: SocketId, msg: Message)
    | UpNack(client: ClientId, socket: SocketId, msg: Message)
    | Closed(socket: SocketId, namespace: Namespace)
    | Gone(client: ClientId)
  {
    predicate IsVerdict() { UpAck? || UpNack? }
  }

  datatype Proxy = Proxy(
    namespaceClients: OrderedMap<Namespace, set<ClientId>>,
    namespaceEventStreamSocket: map<Namespace, SocketId>,
    awaitingAck: map<ClientId, seq<Message>>,
    queue: seq<Batch>,
    log: seq<Obs>)

  const INITIAL := Proxy(OrderedMap([], map[]), map[], map[], [], [])

  /** In JavaScript every array is truthy, the empty one included. */
  predicate ArrayIsTruthy<T>(a: seq<T>) { true }

  function FindById(msgs: seq<Message>, id: string): (r: Option<Message>)
    ensures r.Some? ==> r.value in msgs && r.value.id == id
    ensures r.None? ==> forall m :: m in msgs ==> m.id != id
  {
    if msgs == [] then None
    else if msgs[0].id == id then Some(msgs[0])
    else FindById(msgs[1..], id)
  }

  function WithoutId(msgs: seq<Message>, id: string): seq<Message> {
    if msgs == [] then []
    else (if msgs[0].id != id then [msgs[0]] else []) + WithoutId(msgs[1..], id)
  }

  function OfNamespace(msgs: seq<Message>, ns: Namespace): seq<Message> {
    if msgs == [] then []
    else (if msgs[0].namespace == ns then [msgs[0]] else []) + OfNamespace(msgs[1..], ns)
  }

  function OfBatch(msgs: seq<Message>, batchNumber: Option<int>): seq<Message> {
    if msgs == [] then []
    else (if msgs[0].batchNumber == batchNumber then [msgs[0]] else []) + OfBatch(msgs[1..], batchNumber)
  }

  function Connected(p: Proxy, c: ClientId): Proxy {
    if c in p.awaitingAck then p else p.(awaitingAck := p.awaitingAck[c := []])
  }

  /** The tail of a start: join the namespace's client set, creating it if needed. */
  function Joined(p: Proxy, c: ClientId, ns: Namespace): Proxy {
    p.(namespaceClients := p.namespaceClients.Set(ns, p.namespaceClients.Get(ns).GetOr({}) + {c}))
  }

  /** A start resumes after its `await`: the connection succeeded with a socket, or threw. */
  function StartResumed(p: Proxy, c: ClientId, ns: Namespace, outcome: Option<SocketId>): Proxy {
    match outcome
    case None => p
    case Some(k) =>
      Joined(p.(namespaceEventStreamSocket := p.namespaceEventStreamSocket[ns := k],
                log := p.log + [Opened(k, ns)]), c, ns)
  }

  function Queued(p: Proxy, b: Batch): Proxy {
    p.(queue := p.queue + [b], log := p.log + [Arrived(b)])
  }

  /** `send`: the choice stands for the random selection. */
  function Delivered(p: Proxy, msg: Message, choice: ClientId): Proxy {
    if msg.namespace !in p.namespaceClients.entries then p
    else
      p.(awaitingAck := if choice in p.awaitingAck
                        then p.awaitingAck[choice := p.awaitingAck[choice] + [msg]]
                        else p.awaitingAck,
         log := p.log + [Sent(choice, msg)])
  }

  predicate BatchComplete(inflight: Message, rest: seq<Message>) {
    || |rest| == 0
    || (inflight.batchNumber.Some? &&
        !ArrayIsTruthy(OfBatch(rest, inflight.batchNumber)))
  }

  function Acked(p: Proxy, c: ClientId, id: string): Proxy {
    if c !in p.awaitingAck then p
    else
      match FindById(p.awaitingAck[c], id)
      case None => p
      case Some(inflight) =>
        var rest := WithoutId(p.awaitingAck[c], id);
        p.(awaitingAck := p.awaitingAck[c := rest],
           log := p.log + [ClientAcked(c, inflight)] +
                  if BatchComplete(inflight, rest) && inflight.namespace in p.namespaceEventStreamSocket
                  then [UpAck(c, p.namespaceEventStreamSocket[inflight.namespace], inflight)]
                  else [])
  }

  function NacksFor(c: ClientId, k: SocketId, msgs: seq<Message>): (r: seq<Obs>)
    ensures |r| == |msgs| && forall i :: 0 <= i < |r| ==> r[i] == UpNack(c, k, msgs[i])
  {
    if msgs == [] then [] else [UpNack(c, k, msgs[0])] + NacksFor(c, k, msgs[1..])
  }

  function NacksIn(p: Proxy, c: ClientId, ns: Namespace): seq<Obs> {
    if c in p.awaitingAck && ns in p.namespaceEventStreamSocket
    then NacksFor(c, p.namespaceEventStreamSocket[ns], OfNamespace(p.awaitingAck[c], ns))
    else []
  }

  /** The nacks a disconnect issues: those of the first namespace in `Map` order only, because
      the client's list is deleted at the end of the first iteration. */
  function Nacks(p: Proxy, c: ClientId): seq<Obs> {
    if p.namespaceClients.order == [] then [] else NacksIn(p, c, p.namespaceClients.order[0])
  }

  predicate StillServed(p: Proxy, c: ClientId, ns: Namespace) {
    ns in p.namespaceClients.entries && p.namespaceClients.entries[ns] - {c} != {}
  }

  /** Which of the first `i` namespaces keep a client, and which sockets close, in order. */
  function Kept(p: Proxy, c: ClientId, i: nat): seq<Namespace>
    requires i <= |p.namespaceClients.order|
  {
    if i == 0 then []
    else
      var ns := p.namespaceClients.order[i - 1];
      Kept(p, c, i - 1) + if StillServed(p, c, ns) then [ns] else []
  }

  function Closes(p: Proxy, c: ClientId, i: nat): (r: seq<Obs>)
    requires i <= |p.namespaceClients.order|
  {
    if i == 0 then []
    else
      var ns := p.namespaceClients.order[i - 1];
      Closes(p, c, i - 1) +
        if !StillServed(p, c, ns) && ns in p.namespaceEventStreamSocket
        then [Closed(p.namespaceEventStreamSocket[ns], ns)] else []
  }

  function DepartureLog(p: Proxy, c: ClientId): seq<Obs> {
    p.log + Nacks(p, c) + Closes(p, c, |p.namespaceClients.order|) + [Gone(c)]
  }

  function Disconnected(p: Proxy, c: ClientId): Proxy {
    var n := |p.namespaceClients.order|;
    p.(namespaceClients := OrderedMap(
         Kept(p, c, n),
         map ns | ns in p.namespaceClients.entries && StillServed(p, c, ns)
           :: p.namespaceClients.entries[ns] - {c}),
       namespaceEventStreamSocket :=
         map ns | ns in p.namespaceEventStreamSocket && (ns in p.namespaceClients.entries ==> StillServed(p, c, ns))
           :: p.namespaceEventStreamSocket[ns],
       awaitingAck := if n == 0 then p.awaitingAck else p.awaitingAck - {c},
       log := DepartureLog(p, c))
  }
}
