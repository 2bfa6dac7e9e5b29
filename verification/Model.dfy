/** The records the panel works on: instances, tunnels and dashboard proxies. */
module Model {
  import opened Text

  const KIND_SERVER := "server"
  const KIND_CLIENT := "client"

  datatype ServerConfig = ServerConfig(
    enable: bool,
    bindPort: int,
    kcpBindPort: int,
    quicBindPort: int,
    dashboardPort: int,
    dashboardUser: string,
    dashboardPwd: string,
    vhostHTTPPort: int,
    vhostHTTPSPort: int,
    token: string,
    subdomainHost: string,
    maxPortsPerClient: int,
    allowPortsStart: int,
    allowPortsEnd: int,
    logLevel: string,
    logMaxDays: int,
    bindAddr: string,
    transportTLS: bool)

  const NO_SERVER := ServerConfig(false, 0, 0, 0, 0, "", "", 0, 0, "", "", 0, 0, 0, "", 0, "", false)

  datatype ClientConfig = ClientConfig(
    enable: bool,
    serverAddr: string,
    serverPort: int,
    token: string,
    user: string,
    loginFailExit: bool,
    logLevel: string,
    logMaxDays: int,
    transportTLS: bool,
    transportProto: string,
    useEncryption: bool,
    useCompression: bool)

  const NO_CLIENT_SETTINGS := ClientConfig(false, "", 0, "", "", false, "", 0, false, "", false, false)

  /** One supervised frps or frpc. The kind decides which of the two configurations counts. */
  datatype Instance = Instance(
    id: string,
    name: string,
    kind: string,
    note: string,
    server: ServerConfig,
    client: ClientConfig,
    createdAt: int,
    updatedAt: int)
  {
    predicate IsServer() { kind == KIND_SERVER }

    predicate Enabled() { if IsServer() then server.enable else client.enable }

    function SetEnabled(v: bool): Instance {
      if IsServer() then this.(server := server.(enable := v)) else this.(client := client.(enable := v))
    }

    function Normalize(): Instance {
      this.(name := Trim(name), note := Trim(note), kind := Lower(Trim(kind)))
    }
  }

  datatype Tunnel = Tunnel(
    id: string,
    instanceID: string,
    name: string,
    kind: string,  // the field `Type`
    enabled: bool,
    localIP: string,
    localPort: int,
    remotePort: int,
    customDomains: seq<string>,
    subdomain: string,
    secretKey: string,
    group: string,
    note: string,
    createdAt: int,
    updatedAt: int,
    external: bool,
    status: string,
    remoteAddr: string,
    err: string,
    todayIn: int,
    todayOut: int,
    curConns: int)

  const BLANK_TUNNEL := Tunnel("", "", "", "", false, "", 0, 0, [], "", "", "", "", 0, 0, false, "", "", "", 0, 0, 0)

  /** A proxy as one frps dashboard reports it; `ycfrpID` and `note` are its two metadata entries. */
  datatype ProxyStatus = ProxyStatus(
    kind: string,
    status: string,
    user: string,
    ycfrpID: string,
    note: string,
    confKind: string,
    localIP: string,
    localPort: int,
    remotePort: int,
    customDomains: seq<string>,
    subdomain: string,
    todayIn: int,
    todayOut: int,
    curConns: int)
}
