/** Optional and fallible values. */
module Options {

  datatype Option<+T> = None | Some(value: T)

  datatype Result<+T, +E> = Ok(value: T) | Err(error: E)
}

/** The records the desktop store and the command-line client share. Strings are
    sequences of Unicode scalar values; ports are `u16`. */
module Records {
  import opened Options

  type Port = p: int | 0 <= p <= 0xffff

  /** `localhost:localPort` relayed to `remoteHost:remotePort`; `enabled` is
      session state and never persisted. */
  datatype PortForward = PortForward(
    id: string, displayLabel: string, localPort: Port,
    remoteHost: string, remotePort: Port, enabled: bool)

  datatype Profile = Profile(
    id: string, name: string, serverNodeId: string, authKeyId: string,
    socksPort: Option<Port>, httpPort: Option<Port>,
    relayUrls: seq<string>, relayAuthToken: Option<string>,
    forwards: seq<PortForward>)

  datatype AuthKey = AuthKey(id: string, name: string, publicKey: string, secret: string)

  datatype AuthorizedClient = AuthorizedClient(name: string, publicKey: string)

  datatype ServerConfig = ServerConfig(
    endpointId: string, secret: string, authorizedClients: seq<AuthorizedClient>,
    routedDomains: seq<string>, routedCidrs: seq<string>, relayUrls: seq<string>,
    relayAuthToken: Option<string>, enabled: bool)
}
