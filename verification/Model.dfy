/** The per-node configuration artifact exchanged between panel and nodes. */
module Model {
  import opened DomainSet

  datatype EgressTarget = EgressTarget(
    nodeId: string, name: string, endpoint: string, sni: string, priority: int, weight: int)

  datatype EgressPolicy = EgressPolicy(
    mode: string, targets: seq<EgressTarget>,
    failThreshold: int, riseThreshold: int, probeInterval: int,
    hysteresisPct: int, hysteresisMs: int)

  datatype Service = Service(
    slug: string, name: string, priority: int, ttl: int, allowedPorts: seq<int>,
    udpMode: string, rules: DomSet, ruleSetHash: string,
    ingressV4: seq<string>, ingressV6: seq<string>, egress: EgressPolicy)

  datatype DnsConfig = DnsConfig(publishAAAA: bool, rateLimitQps: int, rateLimitBurst: int)

  datatype IngressConfig = IngressConfig(maxPreReadBytes: int, maxSessions: int)

  datatype EgressConfig = EgressConfig(
    allow: DomSet, allowedPorts: seq<int>, resolver: string, maxSessions: int, allowPrivate: bool)

  datatype NodeConfig = NodeConfig(
    schemaVersion: int, revisionId: string, sequence: int,
    nodeId: string, nodeName: string, role: string,
    services: seq<Service>, dns: DnsConfig, ingress: IngressConfig, egress: EgressConfig,
    logLevel: string, notes: seq<string>)

  const ROLE_INGRESS := "ingress"
  const ROLE_EGRESS := "egress"

  const NO_RULES := DomSet([], [], [])
  const NO_DNS := DnsConfig(false, 0, 0)
  const NO_INGRESS := IngressConfig(0, 0)
  const NO_EGRESS := EgressConfig(NO_RULES, [], "", 0, false)
}
