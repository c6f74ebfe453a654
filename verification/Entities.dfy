/** The values that travel between the parts of the frontend. */
module Entities {

  datatype Option<+T> = None | Some(value: T)

  /** What identifies a backend to the forwarders, the reactor and the sentinels. */
  datatype BackendKey = BackendKey(name: string, port: int)

  datatype BackendServer = BackendServer(
    name: string, ip: string, port: int, comment: string, load: real, throttle: nat)

  datatype BackendService = BackendService(
    backend: BackendServer, uri: string, lastUpdate: int, allowCache: bool,
    sequence: int, definesPrefix: bool)
  {
    function Key(): BackendKey { BackendKey(backend.name, backend.port) }
  }

  /** A forwarder's own record of one backend. */
  datatype BackendInfo = BackendInfo(hostName: string, port: int, load: real) {
    function Key(): BackendKey { BackendKey(hostName, port) }
  }

  datatype InfoRequest = InfoRequest(
    backend: BackendServer, name: string, lastUpdate: int, sequence: int)

  datatype Request = Request(
    resource: string, clientIP: string,
    cookie: Option<string>, forwardedFor: Option<string>, userAgent: Option<string>)

  /** The reactor's number of active requests per backend; absent means zero. */
  type Connections = map<BackendKey, ConnectionCount>

  type ConnectionCount = n: nat | n <= INT_MAX

  const INT_MAX: nat := 0x7fff_ffff

  function Count(connections: Connections, key: BackendKey): ConnectionCount {
    if key in connections then connections[key] else 0
  }

  function ServiceKeys(services: seq<BackendService>): (keys: seq<BackendKey>)
    ensures |keys| == |services|
  {
    seq(|services|, i requires 0 <= i < |services| => services[i].Key())
  }

  function InfoKeys(infos: seq<BackendInfo>): (keys: seq<BackendKey>)
    ensures |keys| == |infos|
  {
    seq(|infos|, i requires 0 <= i < |infos| => infos[i].Key())
  }

  datatype ForwardingMode =
    Random | InverseLoad | InverseConnections | LeastConnections | DoubleRandom | Sticky
}
