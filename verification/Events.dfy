/** What the gateway reports about a request. */
module Events {
  import opened Options

  datatype ActionType =
    | Allowed
    | RateLimited
    | Blacklisted
    | AnomalyBlocked
    | AuthFailed
    | ReplayBlocked
    | GeoBlocked
    | MtlsRejected
    | CheatDetected

  datatype TrafficEvent = TrafficEvent(
    timestamp: real, clientIp: string, endpoint: string, packetSize: int, action: ActionType,
    requestsLastWindow: int, country: Option<string>)
}
