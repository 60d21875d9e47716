/** The agent's check of a configuration before it is applied. */
module Validation {
  import opened Collections
  import opened Model

  datatype Rejection =
    | BadSchema(version: int)
    | ForeignNode(nodeId: string)
    | ForeignRole(role: string)
    | NoServices
    | NoTarget(slug: string)
    | NoAddress(slug: string)
    | NoPorts
    | UnknownRole(role: string)

  predicate Publishable(s: Service) {
    s.egress.targets != [] && (s.ingressV4 != [] || s.ingressV6 != [])
  }

  /** The configuration is for this node and has what its role needs; an empty id or role is not compared. */
  predicate Acceptable(c: NodeConfig, nodeId: string, role: string) {
    && c.schemaVersion == 1
    && (nodeId != "" ==> c.nodeId == nodeId)
    && (role != "" ==> c.role == role)
    && (c.role == ROLE_INGRESS || c.role == ROLE_EGRESS)
    && (c.role == ROLE_INGRESS ==> c.services != [] && forall s :: s in c.services ==> Publishable(s))
    && (c.role == ROLE_EGRESS ==> c.egress.allowedPorts != [])
  }

  method Validate(c: NodeConfig, nodeId: string, role: string) returns (r: Option<Rejection>)
    ensures r.None? <==> Acceptable(c, nodeId, role)
    ensures c.schemaVersion != 1 <==> r == Some(BadSchema(c.schemaVersion))
    ensures c.schemaVersion == 1 && nodeId != "" && nodeId != c.nodeId <==> r == Some(ForeignNode(c.nodeId))
    ensures c.schemaVersion == 1 && (nodeId == "" || nodeId == c.nodeId) && role != "" && role != c.role <==>
            r == Some(ForeignRole(c.role))
    ensures r.Some? && (r.value.NoTarget? || r.value.NoAddress?) ==>
              exists k :: 0 <= k < |c.services| && c.services[k].slug == r.value.slug
                          && (if r.value.NoTarget? then c.services[k].egress.targets == []
                              else c.services[k].ingressV4 == [] && c.services[k].ingressV6 == [])
  {
    if c.schemaVersion != 1 { return Some(BadSchema(c.schemaVersion)); }
    if nodeId != "" && c.nodeId != nodeId { return Some(ForeignNode(c.nodeId)); }
    if role != "" && c.role != role { return Some(ForeignRole(c.role)); }
    if c.role == ROLE_INGRESS {
      if |c.services| == 0 { return Some(NoServices); }
      for i := 0 to |c.services|
        invariant forall k :: 0 <= k < i ==> Publishable(c.services[k])
      {
        var s := c.services[i];
        if |s.egress.targets| == 0 {
          assert !Publishable(s);
          return Some(NoTarget(s.slug));
        }
        if |s.ingressV4| == 0 && |s.ingressV6| == 0 {
          assert !Publishable(s);
          return Some(NoAddress(s.slug));
        }
      }
      assert ROLE_INGRESS[0] != ROLE_EGRESS[0];
    } else if c.role == ROLE_EGRESS {
      if |c.egress.allowedPorts| == 0 { return Some(NoPorts); }
    } else {
      return Some(UnknownRole(c.role));
    }
    return None;
  }
}
