/** `allow(roles)`: the route guard that lets a request through to the next
    handler only when its role claim is one of the listed roles. */
module RoleMiddleware {
  import opened Common
  import opened Store

  /** Either the request goes on to `next()`, or the guard answers itself. */
  datatype Gate = Next | Reject(code: Code, error: string)

  function Allow(roles: seq<string>, req: Requester): (g: Gate)
    ensures g.Next? <==> req.role in roles
    ensures g.Reject? ==> g == Reject(Forbidden, "Forbidden") && HttpStatus(g.code) == 403
  {
    if req.role in roles then Next else Reject(Forbidden, "Forbidden")
  }

  /** An empty list of roles lets nobody through. */
  lemma AllowNoneDeniesAll(req: Requester)
    ensures Allow([], req) == Reject(Forbidden, "Forbidden")
  {
  }

  /** The decision reads the role claim and nothing else of the request. */
  lemma AllowOnlyReadsRole(roles: seq<string>, a: Requester, b: Requester)
    requires a.role == b.role
    ensures Allow(roles, a) == Allow(roles, b)
  {
  }

  /** Guarding with `allow(['support'])` passes exactly the requests the
      controllers' own `userRole === 'support'` checks pass. */
  lemma SupportGateAgrees(req: Requester)
    ensures Allow([SupportRole], req).Next? <==> IsSupport(req)
  {
  }
}
