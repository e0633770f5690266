/** The keys with a canonical spelling. */
module KnownKeys {
  /** The known keys; the lookup table of the program maps the lower-case form of each to this spelling. */
  const KNOWN_KEYS: seq<string> := [
    "Address", "AddressFamily", "AutoConnect", "BindToAddress", "BindToInterface", "Broadcast",
    "BroadcastSubnet", "Cipher", "ClampMSS", "Compression", "ConnectTo", "DecrementTTL", "Device",
    "DeviceStandby", "DeviceType", "Digest", "DirectOnly", "Ed25519PublicKey", "Ed25519PrivateKey",
    "Forwarding", "FWMark", "Hostnames", "Ifconfig", "IffOneQueue", "IndirectData", "Interface",
    "InvitationExpire", "KeyExpire", "ListenAddress", "LocalDiscovery", "LogLevel", "MACLength", "MACExpire",
    "MaxConnectionBurst", "MaxTimeout", "Mode", "MTUInfoInterval", "Name", "Netname", "PMTU", "PMTUDiscovery",
    "PingInterval", "PingTimeout", "Port", "PriorityInheritance", "ProcessPriority", "Proxy", "ReplayWindow",
    "Route", "Sandbox", "ScriptsExtension", "ScriptsInterpreter", "StrictSubnets", "Subnet", "TCPOnly",
    "TunnelServer", "UDPDiscovery", "UDPDiscoveryInterval", "UDPDiscoveryKeepaliveInterval",
    "UDPDiscoveryTimeout", "UDPInfoInterval", "UDPRcvBuf", "UDPSndBuf", "UPnP", "UPnPDiscoverWait",
    "UPnPRefreshPeriod", "Weight", "WGPublicKey", "WGPrivateKey", "WGEndpoint"
  ]
}
