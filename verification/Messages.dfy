/** Discovery messages, and what a reply asks the frontend to do. */
module Messages {
  import opened Entities
  import opened Protocol
  import opened Text
  import Sentinels

  datatype MessageType = DiscoveryRequest | DiscoveryReply | DiscoveryBeacon

  datatype HostInfo = HostInfo(ip: string, port: int, comment: string, load: real, throttle: int)

  datatype ServiceItem = ServiceItem(uri: string, lastUpdate: int, allowCache: bool, isPrefix: Option<bool>)

  datatype InfoQuery = InfoQuery(name: string, lastUpdate: int)

  datatype Message = Message(
    name: string, messageType: MessageType, seqnum: int, host: Option<HostInfo>,
    services: seq<ServiceItem>, infoQueries: seq<InfoQuery>)

  function Discovery(name: string, seqnum: int): Message {
    Message(name, DiscoveryRequest, seqnum, None, [], [])
  }

  // ----- The backend's side -----

  /** What a backend says about itself: its address and load, its URIs and its info queries. */
  datatype Advert = Advert(name: string, host: HostInfo, services: seq<ServiceItem>, infoQueries: seq<InfoQuery>)

  /** Only a discovery request is answered, with the request's own sequence number. */
  function Answer(advert: Advert, message: Message): Option<Message> {
    match message.messageType
    case DiscoveryRequest =>
      Some(Message(advert.name, DiscoveryReply, message.seqnum, Some(advert.host), advert.services, advert.infoQueries))
    case DiscoveryReply => None
    case DiscoveryBeacon => None
  }

  /** A reply that carries the request's number and says what the backend is and serves. */
  predicate Echoing(advert: Advert, message: Message, reply: Message) {
    && reply.messageType == DiscoveryReply && reply.seqnum == message.seqnum
    && reply.name == advert.name && reply.host == Some(advert.host)
    && reply.services == advert.services && reply.infoQueries == advert.infoQueries
  }

  /** The answer is the one echo of a request, and of nothing else is there an answer. */
  lemma OnlyAnswer(advert: Advert, message: Message, response: Option<Message>)
    ensures response == Answer(advert, message) <==>
            (response.Some? <==> message.messageType == DiscoveryRequest) &&
            (response.Some? ==> Echoing(advert, message, response.value))
  {
    match message.messageType
    case DiscoveryRequest =>
    case DiscoveryReply =>
    case DiscoveryBeacon =>
  }

  // ----- The frontend's side -----

  /** A reply without host or services is ignored, like everything that is no reply. */
  predicate Acceptable(m: Message) {
    m.messageType == DiscoveryReply && m.host.Some? && m.services != []
  }

  /** A negative throttle throws. */
  predicate Usable(m: Message) {
    Acceptable(m) && m.host.value.throttle >= 0
  }

  function Server(m: Message): BackendServer
    requires Usable(m)
  {
    var h := m.host.value;
    BackendServer(m.name, h.ip, h.port, h.comment, h.load, h.throttle)
  }

  function ServiceOf(m: Message, item: ServiceItem): BackendService
    requires Usable(m)
  {
    BackendService(Server(m), item.uri, item.lastUpdate, item.allowCache, m.seqnum, item.isPrefix == Some(true))
  }

  /** Every service is added under its URI and under the URI that names the host. */
  function ServiceEvents(m: Message, n: nat): seq<Event>
    requires Usable(m) && n <= |m.services|
  {
    if n == 0 then []
    else
      var item, load := m.services[n - 1], m.host.value.load;
      var service := ServiceOf(m, item);
      ServiceEvents(m, n - 1) + [Add(service, item.uri, load)] + [Add(service, "/" + m.name + item.uri, load)]
  }

  function RequestOf(m: Message, query: InfoQuery): InfoRequest
    requires Usable(m)
  {
    InfoRequest(Server(m), query.name, query.lastUpdate, m.seqnum)
  }

  function RequestEvents(m: Message, n: nat): seq<Event>
    requires Usable(m) && n <= |m.infoQueries|
  {
    if n == 0 then []
    else RequestEvents(m, n - 1) + [AddRequest(RequestOf(m, m.infoQueries[n - 1]))]
  }

  /** The locked steps that processing a reply takes, in order. */
  function ReplyEvents(m: Message): seq<Event>
    requires Usable(m)
  {
    ServiceEvents(m, |m.services|) + RequestEvents(m, |m.infoQueries|) + [Accept]
  }

  /** Each step that adds a service registers its backend's sentinel. */
  function Registered(counters: map<string, Sentinels.Counter>, e: Event): map<string, Sentinels.Counter> {
    if e.Add? then
      Sentinels.Apply(counters, Rendered(e.service.backend.name, e.service.backend.port),
                      Sentinels.Registered(e.service.Key(), e.service.backend.throttle))
    else counters
  }

  function Registrations(counters: map<string, Sentinels.Counter>, events: seq<Event>): map<string, Sentinels.Counter> {
    if events == [] then counters
    else Registered(Registrations(counters, events[..|events| - 1]), events[|events| - 1])
  }

  predicate Stamped(e: Event, n: int) {
    match e
    case Add(service, _, _) => service.sequence == n
    case AddRequest(request) => request.sequence == n
    case _ => true
  }

  lemma {:induction false} ServiceEventsStamped(m: Message, n: nat)
    requires Usable(m) && n <= |m.services|
    ensures forall e :: e in ServiceEvents(m, n) ==>
        Stamped(e, m.seqnum) && e.Add? && e.service.Key() == BackendKey(m.name, m.host.value.port)
    ensures |ServiceEvents(m, n)| == 2 * n
  {
    if n > 0 { ServiceEventsStamped(m, n - 1); }
  }

  lemma {:induction false} RequestEventsStamped(m: Message, n: nat)
    requires Usable(m) && n <= |m.infoQueries|
    ensures forall e :: e in RequestEvents(m, n) ==> Stamped(e, m.seqnum) && e.AddRequest?
    ensures |RequestEvents(m, n)| == n
  {
    if n > 0 { RequestEventsStamped(m, n - 1); }
  }

  /** Echo: whatever a backend's answer to request n adds to the frontend carries n; it is two
      registrations per service, one per info query, and one acceptance. */
  lemma SequenceEcho(advert: Advert, request: Message)
    requires request.messageType == DiscoveryRequest && advert.services != [] && advert.host.throttle >= 0
    ensures Answer(advert, request).Some? && Acceptable(Answer(advert, request).value)
    ensures var events := ReplyEvents(Answer(advert, request).value);
            && |events| == 2 * |advert.services| + |advert.infoQueries| + 1
            && forall e :: e in events ==> Stamped(e, request.seqnum)
  {
    var m := Answer(advert, request).value;
    ServiceEventsStamped(m, |m.services|);
    RequestEventsStamped(m, |m.infoQueries|);
  }
}
