/** Who may create an instance where: the request handlers, and what they guarantee over histories. */
module Delegation {
  import opened Principals
  import opened PrincipalMap
  import opened NetMap
  import opened PrincipalCache
  import opened CacheRuns

  // ---------------------------------------------------------------- decisions, on values

  /** How the proxy reads an address (an upper port it does not find is -1) and a network. */
  datatype Parsers = Parsers(addr: string -> Option<Addr>, cidr: string -> Option<Cidr>)

  /** The control rule: the provider, a sub-range at the same IP, or a VM's own network. */
  function Authorize(principal: string, instance: Option<CachedInstance>, target: Addr): int {
    if principal == IAAS_PROVIDER then STATUS_OK
    else if instance.None? then STATUS_UNAUTHORIZED
    else if target.Within(instance.value.addr) then STATUS_OK
    else if ByCidr(instance.value, target) then STATUS_OK
    else STATUS_UNAUTHORIZED
  }

  predicate ByCidr(creator: CachedInstance, target: Addr) {
    creator.cred.kind == VM_INSTANCE_TYPE && creator.cred.cidr.Some? && creator.cred.cidr.value.Contains(target.ip)
  }

  /** An authenticated creation request; `who` is the instance found for its principal, none for
      the provider. `vm` tells the two creation calls apart. */
  datatype Request = Request(who: Option<CachedInstance>, values: seq<string>, vm: bool)

  /** The name a request is decided under. */
  function PrincipalOf(who: Option<CachedInstance>): string {
    if who.None? then IAAS_PROVIDER else who.value.cred.pid
  }

  datatype Decision = Grant(inst: CachedInstance) | Refuse(outcome: Outcome)

  /** What the pre-hooks decide, and the instance the post-hook registers once they agree. */
  function Decide(ps: Parsers, req: Request): Decision {
    if req.vm then
      if PrincipalOf(req.who) != IAAS_PROVIDER then Refuse(Status(STATUS_UNAUTHORIZED))
      else if |req.values| <= 4 then Refuse(IndexPanic)
      else
        var cidr := ps.cidr(req.values[4]);
        if cidr.None? then Refuse(Status(STATUS_BAD_REQUEST)) else DecideAt(ps, req, 3, VM_INSTANCE_TYPE, cidr)
    else DecideAt(ps, req, 2, NORMAL_INSTANCE_TYPE, None)
  }

  function DecideAt(ps: Parsers, req: Request, i: nat, kind: string, cidr: Option<Cidr>): Decision {
    match TargetAt(ps, PrincipalOf(req.who), req.who, req.values, i)
    case NotAt(outcome) => Refuse(outcome)
    case At(a) => Grant(CachedInstance(a, InstanceCred(req.values[0], PrincipalOf(req.who), cidr, kind)))
  }

  /** The address a request may act on, or why there is none. */
  datatype Targeted = At(a: Addr) | NotAt(outcome: Outcome)

  function TargetAt(ps: Parsers, principal: string, who: Option<CachedInstance>, values: seq<string>, i: nat)
    : (t: Targeted)
    ensures t.At? ==> i < |values|
  {
    if |values| <= i then NotAt(IndexPanic)
    else
      var target := ps.addr(values[i]);
      if target.None? then NotAt(Status(STATUS_BAD_REQUEST)) else Checked(principal, who, target.value)
  }

  function Checked(principal: string, who: Option<CachedInstance>, a: Addr): Targeted {
    var status := Authorize(principal, who, a);
    if status != STATUS_OK then NotAt(Status(status)) else At(a)
  }

  /** The three deletion calls: by a range, by a VM's range, or by a range or pid in the first value. */
  datatype Deleting = ByRange | ByVm | Lazily

  /** An authenticated deletion request. */
  datatype Deletion = Deletion(who: Option<CachedInstance>, values: seq<string>, how: Deleting)

  /** The lazy call asks the cache for its first value as a pid if it is not an address. */
  predicate AsksForPid(ps: Parsers, d: Deletion) {
    d.how.Lazily? && d.values != [] && ps.addr(d.values[0]).None?
  }

  /** Where a deletion request deletes; the pid it deletes there is its first value, unchecked.
      `byId` is what the cache answers if it is asked for a pid. */
  function DeletesAt(ps: Parsers, d: Deletion, byId: Answer): (t: Targeted)
    ensures t.At? ==> |d.values| > 0
  {
    match d.how
    case ByRange => TargetAt(ps, PrincipalOf(d.who), d.who, d.values, 2)
    case ByVm =>
      if PrincipalOf(d.who) != IAAS_PROVIDER then NotAt(Status(STATUS_UNAUTHORIZED))
      else if |d.values| <= 4 then NotAt(IndexPanic)
      else if ps.cidr(d.values[4]).None? then NotAt(Status(STATUS_BAD_REQUEST))
      else TargetAt(ps, PrincipalOf(d.who), d.who, d.values, 3)
    case Lazily =>
      if d.values == [] then NotAt(IndexPanic)
      else
        match ps.addr(d.values[0])
        case Some(a) => Checked(PrincipalOf(d.who), d.who, a)
        case None =>
          match byId
          case Found(inst) => Checked(PrincipalOf(d.who), d.who, inst.addr)
          case Refused(status) => NotAt(Status(status))
          case NilDereference => NotAt(NilPanic)
  }

  /** What the pre-hook of a deletion does to its cache: a pid it asks for may have to be reloaded. */
  ghost predicate Resolves(ps: Parsers, d: Deletion, v: View, records: Records, searchable: bool, reachable: bool,
                           v': View, byId: Answer)
  {
    if AsksForPid(ps, d) then PidAnswers(v, records, d.values[0], searchable, reachable, v', byId) else v' == v
  }

  // ---------------------------------------------------------------- what the decisions mean

  /** Who may act at an address: the provider, or an instance under its name; an instance at the same
      IP whose bounds enclose it; a VM whose network's addresses include its IP. */
  predicate Entitled(who: Option<CachedInstance>, a: Addr) {
    || who.None? || who.value.cred.pid == IAAS_PROVIDER
    || (who.value.addr.ip == a.ip && who.value.addr.lport <= a.lport && a.rport <= who.value.addr.rport)
    || (who.value.cred.kind == VM_INSTANCE_TYPE && who.value.cred.cidr.Some?
        && var n := who.value.cred.cidr.value; n.base <= a.ip < n.base + Pow2(32 - n.bits))
  }

  /** The control rule grants exactly what the requester is entitled to, and refuses all else alike. */
  lemma AuthorizeIff(who: Option<CachedInstance>, a: Addr)
    ensures Authorize(PrincipalOf(who), who, a) == if Entitled(who, a) then STATUS_OK else STATUS_UNAUTHORIZED
  {
    if who.Some? && who.value.cred.cidr.Some? {
      ContainsIsInterval(who.value.cred.cidr.value, a.ip);
    }
  }

  /** Which creation requests are granted, and what they create: a normal instance where the requester
      is entitled to; a VM with its network, if asked for under the provider's name. */
  lemma GrantedIff(ps: Parsers, req: Request, inst: CachedInstance)
    ensures var values, principal := req.values, PrincipalOf(req.who);
            Decide(ps, req) == Grant(inst) <==>
            if req.vm then
              && principal == IAAS_PROVIDER && |values| > 4
              && ps.addr(values[3]) == Some(inst.addr) && ps.cidr(values[4]).Some?
              && inst.cred == InstanceCred(values[0], IAAS_PROVIDER, ps.cidr(values[4]), VM_INSTANCE_TYPE)
            else
              && |values| > 2 && ps.addr(values[2]) == Some(inst.addr) && Entitled(req.who, inst.addr)
              && inst.cred == InstanceCred(values[0], principal, None, NORMAL_INSTANCE_TYPE)
  {
    if !req.vm && |req.values| > 2 && ps.addr(req.values[2]).Some? {
      AuthorizeIff(req.who, ps.addr(req.values[2]).value);
    }
  }

  /** Which deletion requests are granted, and at which address: one they name, or, for the lazy call,
      that of the instance found for the pid they name; in either case where the requester is
      entitled to, and for VMs only under the provider's name. */
  lemma DeletesIff(ps: Parsers, d: Deletion, byId: Answer, a: Addr)
    ensures var values := d.values;
            DeletesAt(ps, d, byId) == At(a) <==>
            && Entitled(d.who, a)
            && match d.how
               case ByRange => |values| > 2 && ps.addr(values[2]) == Some(a)
               case ByVm =>
                 && PrincipalOf(d.who) == IAAS_PROVIDER && |values| > 4
                 && ps.addr(values[3]) == Some(a) && ps.cidr(values[4]).Some?
               case Lazily =>
                 && values != []
                 && (ps.addr(values[0]) == Some(a)
                     || (ps.addr(values[0]).None? && byId.Found? && byId.inst.addr == a))
  {
    AuthorizeIff(d.who, a);
  }

  /** A lazy deletion of a pid deletes at the address of the instance the cache has for it, or the
      store if the cache has none, if the requester is entitled to that; it ends with 404 if neither
      has one and the store answers, and with 500 if it does not. */
  lemma LazyByPid(ps: Parsers, d: Deletion, v: View, records: Records, searchable: bool, reachable: bool, v': View,
                  byId: Answer)
    requires AsksForPid(ps, d) && Resolves(ps, d, v, records, searchable, reachable, v', byId)
    ensures var pid, t := d.values[0], DeletesAt(ps, d, byId);
            if pid in v.pids then v' == v && t == AtIfEntitled(d.who, v.pids[pid].addr)
            else if searchable && !Stored(records, pid) then v' == v && t == NotAt(Status(STATUS_NOT_FOUND))
            else if !searchable || !reachable then v' == v && t == NotAt(Status(STATUS_INTERNAL_ERROR))
            else exists inst :: RecordOf(records, pid, inst) && t == AtIfEntitled(d.who, inst.addr)
  {
    PidLookupDecided(v, records, d.values[0], searchable, reachable, v', byId);
    if byId.Found? {
      AuthorizeIff(d.who, byId.inst.addr);
    }
  }

  function AtIfEntitled(who: Option<CachedInstance>, a: Addr): Targeted {
    if Entitled(who, a) then At(a) else NotAt(Status(STATUS_UNAUTHORIZED))
  }

  // ---------------------------------------------------------------- the handlers

  class MetadataRequest {
    const cache: CacheImpl
    var principal: string
    var otherValues: seq<string>
    var source: Option<Addr>
    var targetCidr: Option<Cidr>
    var target: Option<Addr>
    var targetType: string
    var targetAddrIndex: nat
    var instance: Option<CachedInstance>

    ghost predicate Authenticated(who: Option<CachedInstance>)
      reads this
    {
      && instance == who
      && (who.None? ==> principal == IAAS_PROVIDER)
      && (who.Some? ==> principal == who.value.cred.pid && source == Some(who.value.addr))
    }

    /** A request read from its body, for the provider or for the instance its principal names. */
    constructor (cache: CacheImpl, who: Option<CachedInstance>, values: seq<string>)
      ensures Authenticated(who) && otherValues == values && this.cache == cache
      ensures targetType == NORMAL_INSTANCE_TYPE && targetCidr == None && targetAddrIndex == 0
    {
      this.cache := cache;
      principal, source := IAAS_PROVIDER, None;
      otherValues, targetType, targetCidr, target, targetAddrIndex := values, NORMAL_INSTANCE_TYPE, None, None, 0;
      instance := who;
      if who.Some? {
        principal := who.value.cred.pid;
        source := Some(who.value.addr);
      }
    }

    /** A target that is no address may be looked up as a pid; `searchable` and `reachable` say
        whether the store would answer. */
    method AuthzControl(ps: Parsers, ghost who: Option<CachedInstance>, targetAddr: string, allowUUID: bool,
                        searchable: bool, reachable: bool)
      returns (status: int, ghost byId: Answer)
      requires Authenticated(who) && cache.Valid()
      modifies this`target, cache.pmap
      ensures cache.Valid()
      ensures if ps.addr(targetAddr).None? && allowUUID
              then PidAnswers(old(cache.pmap.Contents()), cache.conn.records, targetAddr, searchable, reachable,
                              cache.pmap.Contents(), byId)
              else cache.pmap.Contents() == old(cache.pmap.Contents())
      ensures target == if ps.addr(targetAddr).None? && allowUUID && byId.Found? then Some(byId.inst.addr)
                        else ps.addr(targetAddr)
      ensures target.None? && allowUUID ==> byId.Refused?
      ensures status ==
              if target.Some? then Authorize(principal, who, target.value)
              else if allowUUID then byId.status
              else STATUS_BAD_REQUEST
    {
      target, byId := ps.addr(targetAddr), NilDereference;
      if target.None? {
        if allowUUID {
          ghost var search, fetch;
          var found;
          found, search, fetch := cache.GetInstanceFromID(targetAddr, searchable, reachable);
          byId := found;
          if found.Refused? {
            return found.status, byId;
          }
          target := Some(found.inst.addr);
        } else {
          return STATUS_BAD_REQUEST, byId;
        }
      }
      if principal == IAAS_PROVIDER {
        return STATUS_OK, byId;
      }
      if source.Some? && source.value.ip == target.value.ip
         && source.value.lport <= target.value.lport && source.value.rport >= target.value.rport {
        return STATUS_OK, byId;
      }
      var cred := instance.value.cred;
      if cred.kind == VM_INSTANCE_TYPE && cred.cidr.Some? {
        if cred.cidr.value.Contains(target.value.ip) {
          return STATUS_OK, byId;
        }
      }
      status := STATUS_UNAUTHORIZED;
    }

    method PreInstanceCallHandler(ps: Parsers, ghost who: Option<CachedInstance>) returns (r: Outcome)
      requires Authenticated(who) && cache.Valid()
      modifies this`target, cache.pmap
      ensures cache.Valid() && cache.pmap.Contents() == old(cache.pmap.Contents())
      ensures var i := if targetAddrIndex > 0 then targetAddrIndex else 2;
              if |otherValues| <= i then r == IndexPanic
              else
                var t := ps.addr(otherValues[i]);
                target == t && r == Status(if t.None? then STATUS_BAD_REQUEST else Authorize(principal, who, t.value))
    {
      var i := 2;
      if targetAddrIndex > 0 {
        i := targetAddrIndex;
      }
      if |otherValues| <= i {
        return IndexPanic;
      }
      ghost var byId;
      var status;
      status, byId := AuthzControl(ps, who, otherValues[i], false, false, false);
      r := Status(status);
    }

    method PreVMInstanceCallHandler(ps: Parsers, ghost who: Option<CachedInstance>) returns (r: Outcome)
      requires Authenticated(who) && cache.Valid()
      modifies this`target, this`targetCidr, this`targetType, this`targetAddrIndex, cache.pmap
      ensures cache.Valid() && cache.pmap.Contents() == old(cache.pmap.Contents())
      ensures r == Status(STATUS_OK) ==>
                && principal == IAAS_PROVIDER && |otherValues| > 4
                && target == ps.addr(otherValues[3]) && target.Some?
                && targetCidr == ps.cidr(otherValues[4]) && targetCidr.Some? && targetType == VM_INSTANCE_TYPE
      ensures principal != IAAS_PROVIDER ==> r == Status(STATUS_UNAUTHORIZED)
      ensures principal == IAAS_PROVIDER ==>
                r == if |otherValues| <= 4 then IndexPanic
                     else if ps.cidr(otherValues[4]).None? || ps.addr(otherValues[3]).None?
                     then Status(STATUS_BAD_REQUEST) else Status(STATUS_OK)
    {
      if principal != IAAS_PROVIDER {
        return Status(STATUS_UNAUTHORIZED);
      }
      if |otherValues| <= 4 {
        return IndexPanic;
      }
      var cidr := ps.cidr(otherValues[4]);
      if cidr.None? {
        return Status(STATUS_BAD_REQUEST);
      }
      targetCidr := cidr;
      targetType := VM_INSTANCE_TYPE;
      targetAddrIndex := 3;
      r := PreInstanceCallHandler(ps, who);
    }

    /** The pre-hook of the lazy deletion. */
    method PreLazyDeletionHandler(ps: Parsers, ghost who: Option<CachedInstance>, searchable: bool, reachable: bool)
      returns (r: Outcome, ghost byId: Answer)
      requires Authenticated(who) && cache.Valid()
      modifies this`target, this`targetType, this`targetCidr, cache.pmap
      ensures cache.Valid()
      ensures Resolves(ps, Deletion(who, otherValues, Lazily), old(cache.pmap.Contents()), cache.conn.records,
                       searchable, reachable, cache.pmap.Contents(), byId)
      ensures match DeletesAt(ps, Deletion(who, otherValues, Lazily), byId)
              case At(a) => r == Status(STATUS_OK) && target == Some(a)
              case NotAt(outcome) => r == outcome && r != Status(STATUS_OK)
      ensures otherValues == [] ==> r == IndexPanic
      ensures otherValues != [] && ps.addr(otherValues[0]).Some? ==>
                r == Status(if Entitled(who, ps.addr(otherValues[0]).value) then STATUS_OK else STATUS_UNAUTHORIZED)
    {
      if |otherValues| == 0 {
        return IndexPanic, NilDereference;
      }
      if ps.addr(otherValues[0]).Some? {
        AuthorizeIff(who, ps.addr(otherValues[0]).value);
      }
      var status;
      status, byId := AuthzControl(ps, who, otherValues[0], true, searchable, reachable);
      if status != STATUS_OK {
        return Status(status), byId;
      }
      targetType := NORMAL_INSTANCE_TYPE;
      targetCidr := None;
      r := Status(STATUS_OK);
    }

    method PostInstanceCreationHandler(forwarded: int, w: WriteOutcome) returns (status: int)
      requires cache.Valid() && target.Some? && |otherValues| > 0
      modifies cache.pmap, cache.conn
      ensures cache.Valid()
      ensures status == forwarded
      ensures forwarded != STATUS_OK ==>
                cache.pmap.Contents() == old(cache.pmap.Contents()) && cache.conn.records == old(cache.conn.records)
      ensures forwarded == STATUS_OK ==>
                var cred := InstanceCred(otherValues[0], principal, targetCidr, targetType);
                var inst := CachedInstance(target.value, cred);
                && cache.pmap.Contents() == PutView(old(cache.pmap.Contents()), inst)
                && cache.conn.records == PutRecord(old(cache.conn.records), inst, w)
    {
      if forwarded != STATUS_OK {
        return forwarded;
      }
      var inst := CachedInstance(target.value, InstanceCred(otherValues[0], principal, targetCidr, targetType));
      var _ := cache.PutInstance(inst, w);
      status := STATUS_OK;
    }

    method PostInstanceDeletionHandler(forwarded: int, w: WriteOutcome) returns (status: int)
      requires cache.Valid() && target.Some? && |otherValues| > 0
      modifies cache.pmap, cache.conn
      ensures cache.Valid()
      ensures status == forwarded
      ensures forwarded != STATUS_OK ==>
                cache.pmap.Contents() == old(cache.pmap.Contents()) && cache.conn.records == old(cache.conn.records)
      ensures forwarded == STATUS_OK ==>
                && cache.pmap.Contents() == DelView(old(cache.pmap.Contents()), target.value, otherValues[0])
                && cache.conn.records == DelRecord(old(cache.conn.records), target.value, w)
    {
      if forwarded != STATUS_OK {
        return forwarded;
      }
      var _ := cache.DelInstance(target.value, otherValues[0], w);
      status := STATUS_OK;
    }
  }

  /** A whole creation call: pre-hook, forwarding, post-hook. It registers exactly the instance
      `Decide` grants, and nothing when it refuses or the forwarding fails. */
  method Create(ps: Parsers, req: Request, cache: CacheImpl, forwarded: int, w: WriteOutcome) returns (r: Outcome)
    requires cache.Valid()
    modifies cache.pmap, cache.conn
    ensures cache.Valid()
    ensures match Decide(ps, req)
            case Refuse(outcome) =>
              && r == outcome
              && cache.pmap.Contents() == old(cache.pmap.Contents()) && cache.conn.records == old(cache.conn.records)
            case Grant(inst) =>
              && r == Status(forwarded)
              && (if forwarded == STATUS_OK then
                    && cache.pmap.Contents() == PutView(old(cache.pmap.Contents()), inst)
                    && cache.conn.records == PutRecord(old(cache.conn.records), inst, w)
                  else
                    && cache.pmap.Contents() == old(cache.pmap.Contents())
                    && cache.conn.records == old(cache.conn.records))
  {
    var mr := new MetadataRequest(cache, req.who, req.values);
    if req.vm {
      r := mr.PreVMInstanceCallHandler(ps, req.who);
    } else {
      r := mr.PreInstanceCallHandler(ps, req.who);
    }
    if r != Status(STATUS_OK) {
      return;
    }
    var status := mr.PostInstanceCreationHandler(forwarded, w);
    r := Status(status);
  }

  /** A whole deletion call. It deletes the range `DeletesAt` allows together with the pid in the
      first value, and nothing when it refuses or the forwarding fails; `mid` is the cache's content
      after its pre-hook, which may have had to reload it. */
  method Delete(ps: Parsers, d: Deletion, cache: CacheImpl, searchable: bool, reachable: bool, forwarded: int,
                w: WriteOutcome)
    returns (r: Outcome, ghost mid: View, ghost byId: Answer)
    requires cache.Valid()
    modifies cache.pmap, cache.conn
    ensures cache.Valid()
    ensures Resolves(ps, d, old(cache.pmap.Contents()), old(cache.conn.records), searchable, reachable, mid, byId)
    ensures match DeletesAt(ps, d, byId)
            case NotAt(outcome) =>
              && r == outcome
              && cache.pmap.Contents() == mid && cache.conn.records == old(cache.conn.records)
            case At(a) =>
              && r == Status(forwarded)
              && (if forwarded == STATUS_OK then
                    && cache.pmap.Contents() == DelView(mid, a, d.values[0])
                    && cache.conn.records == DelRecord(old(cache.conn.records), a, w)
                  else
                    && cache.pmap.Contents() == mid && cache.conn.records == old(cache.conn.records))
  {
    var mr := new MetadataRequest(cache, d.who, d.values);
    byId := NilDereference;
    match d.how {
      case ByRange => r := mr.PreInstanceCallHandler(ps, d.who);
      case ByVm => r := mr.PreVMInstanceCallHandler(ps, d.who);
      case Lazily => r, byId := mr.PreLazyDeletionHandler(ps, d.who, searchable, reachable);
    }
    mid := cache.pmap.Contents();
    if r != Status(STATUS_OK) {
      return;
    }
    var status := mr.PostInstanceDeletionHandler(forwarded, w);
    r := Status(status);
  }

  // ---------------------------------------------------------------- authentication

  /** One outcome of authenticating a principal text: by address if it reads as one, else by pid. */
  ghost predicate Authenticates(ps: Parsers, v: View, records: Records, name: string, searchable: bool,
                                reachable: bool, v': View, r: Answer)
  {
    if NOAUTH_PREFIX <= name then v' == v && r == Refused(STATUS_UNAUTHORIZED)
    else
      match ps.addr(name)
      case Some(a) => AddrAnswers(v, records, a.ip, a.lport, reachable, v', r)
      case None => PidAnswers(v, records, name, searchable, reachable, v', r)
  }

  method Authenticate(ps: Parsers, cache: CacheImpl, name: string, searchable: bool, reachable: bool)
    returns (r: Answer)
    requires cache.Valid()
    modifies cache.pmap
    ensures cache.Valid()
    ensures Authenticates(ps, old(cache.pmap.Contents()), cache.conn.records, name, searchable, reachable,
                          cache.pmap.Contents(), r)
  {
    if NOAUTH_PREFIX <= name {
      return Refused(STATUS_UNAUTHORIZED);
    }
    var a := ps.addr(name);
    if a.None? {
      ghost var search, fetch;
      r, search, fetch := cache.GetInstanceFromID(name, searchable, reachable);
    } else {
      ghost var c;
      r, c := cache.GetInstanceFromNetMap(a.value.ip, a.value.lport, reachable);
    }
  }

  /** How the head of a call that demands authentication ends: turned away, or accepted for the
      provider or for an instance. */
  datatype Head = Turned(outcome: Outcome) | Accepted(who: Option<CachedInstance>)

  /** The end of the head, given what its principal was found to be and whether its remote address
      can be read. */
  function HeadOf(answer: Answer, remote: Option<Addr>): Head {
    match answer
    case Refused(status) => Turned(Status(status))
    case NilDereference => Turned(NilPanic)
    case Found(inst) => if remote.None? then Turned(Status(STATUS_BAD_REQUEST)) else Accepted(Some(inst))
  }

  /** One outcome of the head for a request under `name` from a remote address. */
  ghost predicate Heads(ps: Parsers, v: View, records: Records, name: string, remoteAddr: string, searchable: bool,
                        reachable: bool, v': View, h: Head)
  {
    if name == IAAS_PROVIDER then v' == v && h == Accepted(None)
    else
      exists answer ::
        && Authenticates(ps, v, records, name, searchable, reachable, v', answer)
        && h == HeadOf(answer, ps.addr(remoteAddr))
  }

  /** The head of every call that demands authentication. The provider is taken at its word; any
      other principal, the remote address if the request names none, must be a known instance. */
  method NewAuth(ps: Parsers, cache: CacheImpl, principal: string, remoteAddr: string, values: seq<string>,
                 searchable: bool, reachable: bool)
    returns (r: Outcome, mr: MetadataRequest?, ghost h: Head)
    requires cache.Valid()
    modifies cache.pmap
    ensures cache.Valid()
    ensures Heads(ps, old(cache.pmap.Contents()), cache.conn.records, if principal == "" then remoteAddr else principal,
                  remoteAddr, searchable, reachable, cache.pmap.Contents(), h)
    ensures h.Turned? ==> mr == null && r == h.outcome && r != Status(STATUS_OK)
    ensures h.Accepted? ==> mr != null && r == Status(STATUS_OK) && fresh(mr) && mr.Authenticated(h.who)
    ensures mr != null ==> mr.cache == cache && mr.otherValues == values
                           && mr.targetType == NORMAL_INSTANCE_TYPE && mr.targetCidr == None && mr.targetAddrIndex == 0
  {
    mr := null;
    var name := if principal == "" then remoteAddr else principal;
    if name == IAAS_PROVIDER {
      mr := new MetadataRequest(cache, None, values);
      return Status(STATUS_OK), mr, Accepted(None);
    }
    ghost var v := cache.pmap.Contents();
    var found := Authenticate(ps, cache, name, searchable, reachable);
    h := HeadOf(found, ps.addr(remoteAddr));
    AnswersAreFailures(ps, v, cache.conn.records, name, searchable, reachable, cache.pmap.Contents(), found);
    match found {
      case Refused(status) =>
        r := Status(status);
      case NilDereference =>
        r := NilPanic;
      case Found(inst) =>
        if ps.addr(remoteAddr).None? {
          r := Status(STATUS_BAD_REQUEST);
        } else {
          mr := new MetadataRequest(cache, Some(inst), values);
          r := Status(STATUS_OK);
        }
    }
  }

  lemma AnswersAreFailures(ps: Parsers, v: View, records: Records, name: string, searchable: bool, reachable: bool,
                           v': View, r: Answer)
    requires Authenticates(ps, v, records, name, searchable, reachable, v', r)
    ensures r.Refused? ==> r.status != STATUS_OK
  {
    if !(NOAUTH_PREFIX <= name) {
      match ps.addr(name) {
        case Some(a) => AddrLookupDecided(v, records, a.ip, a.lport, reachable, v', r);
        case None => PidLookupDecided(v, records, name, searchable, reachable, v', r);
      }
    }
  }

  /** The provider's name is accepted unseen, and any name with the noauth prefix turned away unseen. */
  lemma HeadUnseen(ps: Parsers, v: View, records: Records, name: string, remoteAddr: string, searchable: bool,
                   reachable: bool, v': View, h: Head)
    requires Heads(ps, v, records, name, remoteAddr, searchable, reachable, v', h)
    ensures name == IAAS_PROVIDER ==> v' == v && h == Accepted(None)
    ensures |name| >= 7 && name[..7] == "noauth_" ==> v' == v && h == Turned(Status(STATUS_UNAUTHORIZED))
  {
    assert IAAS_PROVIDER[0] == '1' && "noauth_"[0] == 'n';
  }

  /** A pid as principal: accepted as the instance the cache has for it, or the store if the cache has
      none, provided the remote address can be read; turned away with 404 if neither has one and the
      store answers, and with 500 if it does not. */
  lemma HeadByPid(ps: Parsers, v: View, records: Records, name: string, remoteAddr: string, searchable: bool,
                  reachable: bool, v': View, h: Head)
    requires Heads(ps, v, records, name, remoteAddr, searchable, reachable, v', h)
    requires name != IAAS_PROVIDER && !(NOAUTH_PREFIX <= name) && ps.addr(name).None?
    ensures var readable := ps.addr(remoteAddr).Some?;
            if name in v.pids then
              v' == v && h == if readable then Accepted(Some(v.pids[name])) else Turned(Status(STATUS_BAD_REQUEST))
            else if searchable && !Stored(records, name) then
              v' == v && h == Turned(Status(STATUS_NOT_FOUND))
            else if !searchable || !reachable then
              v' == v && h == Turned(Status(STATUS_INTERNAL_ERROR))
            else if !readable then h == Turned(Status(STATUS_BAD_REQUEST))
            else h.Accepted? && h.who.Some? && RecordOf(records, name, h.who.value)
  {
    var answer :| Authenticates(ps, v, records, name, searchable, reachable, v', answer)
                  && h == HeadOf(answer, ps.addr(remoteAddr));
    PidLookupDecided(v, records, name, searchable, reachable, v', answer);
  }

  /** The end of a head whose principal is the owner of range `b` of the cache. */
  ghost predicate HeadAtRange(v: View, b: Addr, readable: bool, h: Head) {
    && b in v.ranges
    && var p := v.ranges[b].p;
       h == if p !in v.pids then Turned(NilPanic)
            else if readable then Accepted(Some(v.pids[p]))
            else Turned(Status(STATUS_BAD_REQUEST))
  }

  /** An address as principal: decided by its IP and lower port. Accepted as the owner of an innermost
      cached range with that port, or of an innermost stored one if the cache has none, provided the
      remote address can be read; turned away with 404 if neither has one and the store answers, and
      with 500 if it does not. */
  lemma HeadByAddr(ps: Parsers, v: View, records: Records, name: string, remoteAddr: string, searchable: bool,
                   reachable: bool, v': View, h: Head)
    requires Heads(ps, v, records, name, remoteAddr, searchable, reachable, v', h)
    requires name != IAAS_PROVIDER && !(NOAUTH_PREFIX <= name) && ps.addr(name).Some?
    ensures var ip, port, readable := ps.addr(name).value.ip, ps.addr(name).value.lport, ps.addr(remoteAddr).Some?;
            if exists a :: a in v.ranges && a.Contains(ip, port) then
              v' == v && exists b :: Innermost(v.ranges, b, ip, port) && HeadAtRange(v, b, readable, h)
            else if !reachable then h == Turned(Status(STATUS_INTERNAL_ERROR))
            else if !exists a :: a in records && a.Contains(ip, port) then h == Turned(Status(STATUS_NOT_FOUND))
            else if !readable then h == Turned(Status(STATUS_BAD_REQUEST))
            else h.Accepted? && h.who.Some? && exists b :: FoundInStore(records, ip, port, b, h.who.value)
  {
    var answer :| Authenticates(ps, v, records, name, searchable, reachable, v', answer)
                  && h == HeadOf(answer, ps.addr(remoteAddr));
    var a := ps.addr(name).value;
    AddrLookupDecided(v, records, a.ip, a.lport, reachable, v', answer);
    if b :| FoundInCache(v, a.ip, a.lport, b, answer) {
      assert Innermost(v.ranges, b, a.ip, a.lport) && HeadAtRange(v, b, ps.addr(remoteAddr).Some?, h);
    }
  }

  // ---------------------------------------------------------------- histories

  /** A registered instance and the instance that asked for it, none if the request came in the
      provider's name without a lookup. */
  datatype Creation = Creation(inst: CachedInstance, who: Option<CachedInstance>) {
    /** Asked for under the provider's name, be it by an instance that has that name as its pid. */
    predicate InProvidersName() {
      who.None? || who.value.cred.pid == IAAS_PROVIDER
    }
  }

  /** The caches and their store, all creations so far, and the instances lookups have vouched for:
      a request may act for one of them, or delete one it has looked up, at any later time. */
  datatype World = World(sys: Sys, log: seq<Creation>, vouched: set<CachedInstance>)

  datatype Move =
    | LookupMove(act: Act)
    | CreateMove(cache: nat, req: Request, w: WriteOutcome)
    | DeleteMove(cache: nat, d: Deletion, byId: Answer, w: WriteOutcome)

  ghost predicate Allowed(ps: Parsers, world: World, move: Move) {
    match move
    case LookupMove(act) => !act.ev.Put? && !act.ev.Del? && Possible(world.sys, act)
    case CreateMove(cache, req, w) =>
      && (req.who.Some? ==> req.who.value in world.vouched)
      && Decide(ps, req).Grant?
      && Possible(world.sys, Act(cache, Put(Decide(ps, req).inst, w)))
    case DeleteMove(cache, d, byId, w) =>
      && (d.who.Some? ==> d.who.value in world.vouched)
      && (byId.Found? ==> byId.inst in world.vouched)
      && DeletesAt(ps, d, byId).At?
      && Possible(world.sys, Act(cache, Del(DeletesAt(ps, d, byId).a, d.values[0], w)))
  }

  ghost function After(ps: Parsers, world: World, move: Move): World
    requires Allowed(ps, world, move)
  {
    match move
    case LookupMove(act) =>
      var answer := AnswerOf(world.sys, act);
      var vouched := if answer.Some? && answer.value.Found? then world.vouched + {answer.value.inst} else world.vouched;
      World(Next(world.sys, act), world.log, vouched)
    case CreateMove(cache, req, w) =>
      var inst := Decide(ps, req).inst;
      World(Next(world.sys, Act(cache, Put(inst, w))), world.log + [Creation(inst, req.who)], world.vouched)
    case DeleteMove(cache, d, byId, w) =>
      world.(sys := Next(world.sys, Act(cache, Del(DeletesAt(ps, d, byId).a, d.values[0], w))))
  }

  /** From empty caches over an empty store. */
  ghost predicate History(ps: Parsers, worlds: seq<World>, moves: seq<Move>) {
    && |worlds| == |moves| + 1
    && Fresh(worlds[0].sys) && worlds[0].sys.records == map[] && worlds[0].log == [] && worlds[0].vouched == {}
    && forall k :: 0 <= k < |moves| ==>
         Allowed(ps, worlds[k], moves[k]) && worlds[k + 1] == After(ps, worlds[k], moves[k])
  }

  ghost predicate Logged(log: seq<Creation>, inst: CachedInstance) {
    exists i :: 0 <= i < |log| && log[i].inst == inst
  }

  ghost predicate ViewLogged(log: seq<Creation>, v: View) {
    forall p :: p in v.pids ==> Logged(log, v.pids[p])
  }

  ghost predicate RecordsLogged(log: seq<Creation>, records: Records) {
    forall a :: a in records ==> Logged(log, CachedInstance(a, records[a]))
  }

  /** Whatever the store, a cache, or a request holds was created by the log. */
  ghost predicate AllLogged(world: World) {
    && RecordsLogged(world.log, world.sys.records)
    && (forall i :: 0 <= i < |world.sys.clients| ==>
          && ViewLogged(world.log, world.sys.clients[i].view)
          && (world.sys.clients[i].pending.Some? ==> Logged(world.log, world.sys.clients[i].pending.value)))
    && (forall inst :: inst in world.vouched ==> Logged(world.log, inst))
  }

  /** The instance lies in the creator's range or in its network. */
  predicate InReach(creator: CachedInstance, a: Addr) {
    a.Within(creator.addr) || ByCidr(creator, a)
  }

  /** VMs have networks, and they alone. */
  predicate NetworkIffVm(inst: CachedInstance) {
    inst.cred.cidr.Some? <==> inst.cred.kind == VM_INSTANCE_TYPE
  }

  /** The creation was asked for in the provider's name, or by an earlier creation, of which it is a
      normal instance in reach. */
  ghost predicate Delegated(before: seq<Creation>, c: Creation) {
    if c.who.None? then c.inst.cred.ppid == IAAS_PROVIDER
    else
      var creator := c.who.value;
      && Logged(before, creator) && c.inst.cred.ppid == creator.cred.pid
      && (creator.cred.pid != IAAS_PROVIDER ==> c.inst.cred.kind != VM_INSTANCE_TYPE && InReach(creator, c.inst.addr))
  }

  ghost predicate SoundLog(log: seq<Creation>) {
    forall i :: 0 <= i < |log| ==> NetworkIffVm(log[i].inst) && Delegated(log[..i], log[i])
  }

  lemma {:induction false} ReloadLogged(log: seq<Creation>, v: View, docs: seq<CachedInstance>)
    requires ViewLogged(log, v) && forall d :: d in docs ==> Logged(log, d)
    ensures ViewLogged(log, ReloadView(v, docs))
  {
    if docs != [] {
      ReloadLogged(log, v, docs[..|docs| - 1]);
    }
  }

  lemma LoggedGrows(log: seq<Creation>, c: Creation)
    ensures forall inst :: Logged(log, inst) ==> Logged(log + [c], inst)
    ensures Logged(log + [c], c.inst)
  {
    forall inst | Logged(log, inst)
      ensures Logged(log + [c], inst)
    {
      var i :| 0 <= i < |log| && log[i].inst == inst;
      assert (log + [c])[i].inst == inst;
    }
    assert (log + [c])[|log|].inst == c.inst;
  }

  lemma ListedAreLogged(log: seq<Creation>, records: Records, q: Query, docs: seq<CachedInstance>)
    requires RecordsLogged(log, records) && Lists(records, q, docs)
    ensures forall d :: d in docs ==> Logged(log, d)
  {
  }

  lemma CacheMoveLogged(world: World, act: Act)
    requires AllLogged(world) && !act.ev.Put? && Possible(world.sys, act)
    ensures AllLogged(world.(sys := Next(world.sys, act)))
    ensures AnswerOf(world.sys, act).Some? && AnswerOf(world.sys, act).value.Found? ==>
              Logged(world.log, AnswerOf(world.sys, act).value.inst)
  {
    var c := world.sys.clients[act.who];
    match act.ev {
      case Del(a, pid, _) =>
      case ByAddr(ip, port, choice) =>
        if choice.first.None? && choice.fetch.Some? {
          ListedAreLogged(world.log, world.sys.records, AtIp(ip), choice.fetch.value);
          ReloadLogged(world.log, c.view, choice.fetch.value);
        }
      case ByPid(pid, search) =>
        if search.Some? && search.value != [] {
          ListedAreLogged(world.log, world.sys.records, WithPid(pid), search.value);
          assert search.value[0] in search.value;
        }
      case Resume(fetch) =>
        if fetch.Some? {
          ListedAreLogged(world.log, world.sys.records, AtIp(c.pending.value.addr.ip), fetch.value);
          ReloadLogged(world.log, c.view, fetch.value);
        }
    }
  }

  lemma CreateMoveLogged(world: World, cache: nat, inst: CachedInstance, who: Option<CachedInstance>, w: WriteOutcome)
    requires AllLogged(world) && Possible(world.sys, Act(cache, Put(inst, w)))
    ensures var sys := Next(world.sys, Act(cache, Put(inst, w)));
            AllLogged(World(sys, world.log + [Creation(inst, who)], world.vouched))
  {
    LoggedGrows(world.log, Creation(inst, who));
  }

  lemma GrantIsDelegated(ps: Parsers, before: seq<Creation>, req: Request)
    requires Decide(ps, req).Grant?
    requires req.who.Some? ==> Logged(before, req.who.value)
    ensures NetworkIffVm(Decide(ps, req).inst) && Delegated(before, Creation(Decide(ps, req).inst, req.who))
  {
  }

  lemma SoundLogGrows(log: seq<Creation>, c: Creation)
    requires SoundLog(log) && NetworkIffVm(c.inst) && Delegated(log, c)
    ensures SoundLog(log + [c])
  {
    var log' := log + [c];
    forall i | 0 <= i < |log'|
      ensures NetworkIffVm(log'[i].inst) && Delegated(log'[..i], log'[i])
    {
      assert log'[..i] == log[..i];
      assert log[..|log|] == log;
    }
  }

  /** In every reachable state everything is accounted for by a sound log of creations. */
  lemma {:induction false} HistoryIsSound(ps: Parsers, worlds: seq<World>, moves: seq<Move>, k: nat)
    requires History(ps, worlds, moves) && k < |worlds|
    ensures AllLogged(worlds[k]) && SoundLog(worlds[k].log)
  {
    if k > 0 {
      HistoryIsSound(ps, worlds, moves, k - 1);
      var world := worlds[k - 1];
      match moves[k - 1] {
        case LookupMove(act) =>
          CacheMoveLogged(world, act);
        case DeleteMove(cache, d, byId, w) =>
          CacheMoveLogged(world, Act(cache, Del(DeletesAt(ps, d, byId).a, d.values[0], w)));
        case CreateMove(cache, req, w) =>
          var inst := Decide(ps, req).inst;
          CreateMoveLogged(world, cache, inst, req.who, w);
          GrantIsDelegated(ps, world.log, req);
          SoundLogGrows(world.log, Creation(inst, req.who));
      }
    }
  }

  /** The state holds the instance, in its store or in the pid table of a cache. */
  ghost predicate Holds(sys: Sys, inst: CachedInstance) {
    || (inst.addr in sys.records && sys.records[inst.addr] == inst.cred)
    || exists i, p :: 0 <= i < |sys.clients| && p in sys.clients[i].view.pids && sys.clients[i].view.pids[p] == inst
  }

  /** No instance was created with the provider's name as its pid. */
  ghost predicate NoneNamesProvider(log: seq<Creation>) {
    forall i :: 0 <= i < |log| ==> log[i].inst.cred.pid != IAAS_PROVIDER
  }

  /** Creation `i` made this VM, in the provider's name; by the provider itself unless an instance
      had its name. */
  ghost predicate MadeVm(log: seq<Creation>, i: int, vm: CachedInstance) {
    && 0 <= i < |log| && log[i].inst == vm && vm.cred.ppid == IAAS_PROVIDER
    && log[i].InProvidersName() && (NoneNamesProvider(log) ==> log[i].who.None?)
  }

  /** In every reachable state, whatever the store or a cache holds has a network exactly if it is a
      VM, and every VM was created in the provider's name. */
  lemma VmAuthority(ps: Parsers, worlds: seq<World>, moves: seq<Move>, k: nat, inst: CachedInstance)
    requires History(ps, worlds, moves) && k < |worlds| && Holds(worlds[k].sys, inst)
    ensures NetworkIffVm(inst)
    ensures inst.cred.kind == VM_INSTANCE_TYPE ==> exists i :: MadeVm(worlds[k].log, i, inst)
  {
    HistoryIsSound(ps, worlds, moves, k);
    var log := worlds[k].log;
    assert Logged(log, inst);
    var i :| 0 <= i < |log| && log[i].inst == inst;
    if inst.cred.kind == VM_INSTANCE_TYPE {
      assert MadeVm(log, i, inst);
    }
  }

  /** As long as no instance has the provider's name, whatever an instance created is normal, has it
      as parent, and lies in its reach; no pids need to be unique for that. */
  lemma InstancesCreateInReach(ps: Parsers, worlds: seq<World>, moves: seq<Move>, k: nat, i: nat)
    requires History(ps, worlds, moves) && k < |worlds| && i < |worlds[k].log|
    requires NoneNamesProvider(worlds[k].log) && worlds[k].log[i].who.Some?
    ensures var c := worlds[k].log[i];
            var creator := c.who.value;
            && Logged(worlds[k].log[..i], creator) && c.inst.cred.ppid == creator.cred.pid
            && c.inst.cred.kind != VM_INSTANCE_TYPE && c.inst.cred.cidr.None?
            && InReach(creator, c.inst.addr)
  {
    HistoryIsSound(ps, worlds, moves, k);
  }

  // ---------------------------------------------------------------- an instance in the provider's name

  predicate CoversAll(creator: CachedInstance) {
    creator.cred.kind == VM_INSTANCE_TYPE && creator.cred.cidr.Some? && creator.cred.cidr.value.bits == 0
  }

  /** Two addresses are outside every network with at least one bit. */
  lemma OutsideNetwork(n: Cidr) returns (ip: Ip, other: Ip)
    requires n.bits > 0
    ensures ip != other && !n.Contains(ip) && !n.Contains(other)
  {
    Pow2Grows(32 - n.bits, 31);
    Pow2Of32();
    if n.base >= 2 {
      ip, other := 0, 1;
    } else {
      ip, other := 0xFFFF_FFFE, 0xFFFF_FFFF;
    }
    ContainsIsInterval(n, ip);
    ContainsIsInterval(n, other);
  }

  /** The control rule keeps an instance in its reach exactly if its pid is not the provider's name,
      or its network is all there is. */
  lemma ReachIsEnforcedIff(x: CachedInstance)
    ensures (forall a :: Authorize(x.cred.pid, Some(x), a) == STATUS_OK ==> InReach(x, a))
       <==> x.cred.pid != IAAS_PROVIDER || CoversAll(x)
  {
    if x.cred.pid == IAAS_PROVIDER && !CoversAll(x) {
      var ip, other := 0, 1;
      if x.cred.cidr.Some? && x.cred.cidr.value.bits > 0 {
        ip, other := OutsideNetwork(x.cred.cidr.value);
      }
      var a := Addr(if ip == x.addr.ip then other else ip, 0, 0);
      assert Authorize(x.cred.pid, Some(x), a) == STATUS_OK && !InReach(x, a);
    }
    if CoversAll(x) {
      forall a: Addr
        ensures InReach(x, a)
      {
        Pow2Of32();
        ClearAll(a.ip, 32);
        ClearAll(x.cred.cidr.value.base, 32);
      }
    }
  }

  /** The pid of a new instance plays no part in the decision: any other is granted just so. */
  lemma GrantedPidUnchecked(ps: Parsers, req: Request, pid: string)
    requires Decide(ps, req).Grant?
    ensures var inst := Decide(ps, req).inst;
            Decide(ps, req.(values := req.values[0 := pid])) == Grant(inst.(cred := inst.cred.(pid := pid)))
  {
  }

  ghost predicate ReachedIn(ps: Parsers, n: nat, world: World) {
    exists worlds, moves :: History(ps, worlds, moves) && |moves| == n && worlds[n] == world
  }

  lemma MoveReaches(ps: Parsers, n: nat, world: World, move: Move)
    requires ReachedIn(ps, n, world) && Allowed(ps, world, move)
    ensures ReachedIn(ps, n + 1, After(ps, world, move))
  {
    var worlds, moves :| History(ps, worlds, moves) && |moves| == n && worlds[n] == world;
    var worlds', moves' := worlds + [After(ps, world, move)], moves + [move];
    forall k | 0 <= k < |moves'|
      ensures Allowed(ps, worlds'[k], moves'[k]) && worlds'[k + 1] == After(ps, worlds'[k], moves'[k])
    {
      assert k < n ==> worlds'[k] == worlds[k] && worlds'[k + 1] == worlds[k + 1] && moves'[k] == moves[k];
    }
    assert worlds'[n] == world && worlds'[n + 1] == After(ps, world, move);
    assert worlds'[0] == worlds[0];
    assert History(ps, worlds', moves');
  }

  /** Whatever an instance that was looked up is entitled to it can create: in every reachable state
      its request is granted, logged, cached and, if the write succeeds, stored. */
  lemma EntitledCreates(ps: Parsers, n: nat, world: World, cache: nat, req: Request, a: Addr, w: WriteOutcome)
    requires ReachedIn(ps, n, world)
    requires cache < |world.sys.clients| && world.sys.clients[cache].pending.None?
    requires !req.vm && |req.values| > 2 && ps.addr(req.values[2]) == Some(a)
    requires (req.who.Some? ==> req.who.value in world.vouched) && Entitled(req.who, a)
    ensures var cred := InstanceCred(req.values[0], PrincipalOf(req.who), None, NORMAL_INSTANCE_TYPE);
            var inst, move := CachedInstance(a, cred), CreateMove(cache, req, w);
            && Allowed(ps, world, move)
            && var next := After(ps, world, move);
               && ReachedIn(ps, n + 1, next) && next.log == world.log + [Creation(inst, req.who)]
               && next.sys.clients[cache].view.pids == world.sys.clients[cache].view.pids[inst.cred.pid := inst]
               && (w.Done? ==> next.sys.records == world.sys.records[a := inst.cred])
  {
    var inst := CachedInstance(a, InstanceCred(req.values[0], PrincipalOf(req.who), None, NORMAL_INSTANCE_TYPE));
    GrantedIff(ps, req, inst);
    MoveReaches(ps, n, world, CreateMove(cache, req, w));
  }

  /** A VM that was looked up has a network, and is entitled to every address in it. */
  lemma VmFillsNetwork(ps: Parsers, n: nat, world: World, vm: CachedInstance, a: Addr)
    requires ReachedIn(ps, n, world) && vm in world.vouched && vm.cred.kind == VM_INSTANCE_TYPE
    ensures vm.cred.cidr.Some?
    ensures vm.cred.cidr.value.base <= a.ip < vm.cred.cidr.value.base + Pow2(32 - vm.cred.cidr.value.bits) ==>
              Entitled(Some(vm), a) && Authorize(vm.cred.pid, Some(vm), a) == STATUS_OK
  {
    var worlds, moves :| History(ps, worlds, moves) && |moves| == n && worlds[n] == world;
    HistoryIsSound(ps, worlds, moves, n);
    assert Logged(world.log, vm);
    AuthorizeIff(Some(vm), a);
  }

  /** A world with one cache. */
  function OneCache(v: View, records: Records, log: seq<Creation>, vouched: set<CachedInstance>): World {
    World(Sys([Client(v, None)], records), log, vouched)
  }

  lemma OneCacheCreates(ps: Parsers, n: nat, v: View, records: Records, log: seq<Creation>,
                        vouched: set<CachedInstance>, req: Request, inst: CachedInstance)
    requires ReachedIn(ps, n, OneCache(v, records, log, vouched))
    requires Decide(ps, req) == Grant(inst) && (req.who.Some? ==> req.who.value in vouched)
    ensures ReachedIn(ps, n + 1, OneCache(PutView(v, inst), records[inst.addr := inst.cred],
                                          log + [Creation(inst, req.who)], vouched))
  {
    var world, move := OneCache(v, records, log, vouched), CreateMove(0, req, Done);
    MoveReaches(ps, n, world, move);
    assert After(ps, world, move).sys.clients == [Client(PutView(v, inst), None)];
  }

  lemma OneCacheFinds(ps: Parsers, n: nat, v: View, records: Records, log: seq<Creation>,
                      vouched: set<CachedInstance>, inst: CachedInstance)
    requires ReachedIn(ps, n, OneCache(v, records, log, vouched))
    requires Innermost(v.ranges, inst.addr, inst.addr.ip, inst.addr.lport)
    requires v.ranges[inst.addr].p in v.pids && v.pids[v.ranges[inst.addr].p] == inst
    ensures ReachedIn(ps, n + 1, OneCache(v, records, log, vouched + {inst}))
  {
    var choice := AddrChoice(Some(inst.addr), None, None);
    var world, move := OneCache(v, records, log, vouched),
                       LookupMove(Act(0, ByAddr(inst.addr.ip, inst.addr.lport, choice)));
    MoveReaches(ps, n, world, move);
    assert After(ps, world, move).sys.clients == [Client(v, None)];
  }

  /** A request for a normal instance inside which nothing is registered, and a lookup of its address. */
  lemma OneCacheMeets(ps: Parsers, n: nat, v: View, records: Records, log: seq<Creation>,
                      vouched: set<CachedInstance>, who: Option<CachedInstance>, pid: string, text: string,
                      inst: CachedInstance)
    requires ReachedIn(ps, n, OneCache(v, records, log, vouched))
    requires who.Some? ==> who.value in vouched
    requires inst.cred == InstanceCred(pid, PrincipalOf(who), None, NORMAL_INSTANCE_TYPE)
    requires ps.addr(text) == Some(inst.addr) && Authorize(PrincipalOf(who), who, inst.addr) == STATUS_OK
    requires inst.addr.lport <= inst.addr.rport && forall b :: b in v.ranges ==> !StrictlyInside(b, inst.addr)
    ensures ReachedIn(ps, n + 2, OneCache(PutView(v, inst), records[inst.addr := inst.cred],
                                          log + [Creation(inst, who)], vouched + {inst}))
  {
    var req := Request(who, [pid, "", text], false);
    assert Decide(ps, req) == Grant(inst);
    OneCacheCreates(ps, n, v, records, log, vouched, req, inst);
    OneCacheFinds(ps, n + 1, PutView(v, inst), records[inst.addr := inst.cred], log + [Creation(inst, who)], vouched,
                  inst);
  }

  /** Five moves lead out of every reach: the provider creates `p`; `p`, looked up, creates an
      instance in its range with the provider's name as its pid; that one, looked up by its address,
      creates a VM at any address with any network. */
  lemma NameEscapes(ps: Parsers, p: string, outer: string, inner: string, far: string, net: string)
    requires p != IAAS_PROVIDER
    requires ps.addr(outer).Some? && ps.addr(inner).Some? && ps.addr(far).Some? && ps.cidr(net).Some?
    requires ps.addr(inner).value.Within(ps.addr(outer).value)
    requires ps.addr(inner).value.lport <= ps.addr(inner).value.rport
    ensures exists world ::
              && ReachedIn(ps, 5, world) && |world.log| == 3
              && world.log[0].who.None? && AskedBy(world.log, 0, 1) && AskedBy(world.log, 1, 2)
              && world.log[1].inst.addr == ps.addr(inner).value
              && world.log[1].inst.cred.kind == NORMAL_INSTANCE_TYPE
              && world.log[2].inst.addr == ps.addr(far).value
              && world.log[2].inst.cred.kind == VM_INSTANCE_TYPE && world.log[2].inst.cred.cidr == ps.cidr(net)
  {
    var v0 := View(map[], map[]);
    assert ReachedIn(ps, 0, OneCache(v0, map[], [], {})) by {
      assert History(ps, [OneCache(v0, map[], [], {})], []);
    }
    var first := CachedInstance(ps.addr(outer).value, InstanceCred(p, IAAS_PROVIDER, None, NORMAL_INSTANCE_TYPE));
    var second := CachedInstance(ps.addr(inner).value, InstanceCred(IAAS_PROVIDER, p, None, NORMAL_INSTANCE_TYPE));
    var third := CachedInstance(ps.addr(far).value, InstanceCred("", IAAS_PROVIDER, ps.cidr(net), VM_INSTANCE_TYPE));
    OneCacheMeets(ps, 0, v0, map[], [], {}, None, p, outer, first);
    var v1, r1, l1 := PutView(v0, first), map[][first.addr := first.cred], [] + [Creation(first, None)];
    OneCacheMeets(ps, 2, v1, r1, l1, {} + {first}, Some(first), IAAS_PROVIDER, inner, second);
    var v2, r2, l2 := PutView(v1, second), r1[second.addr := second.cred], l1 + [Creation(second, Some(first))];
    var req := Request(Some(second), ["", "", "", far, net], true);
    assert Decide(ps, req) == Grant(third);
    OneCacheCreates(ps, 4, v2, r2, l2, {} + {first} + {second}, req, third);
  }

  // ---------------------------------------------------------------- what a delete can reach

  /** In every history a record leaves the store only by a deletion request for its very address,
      made in the provider's name or by an instance, created earlier, in whose reach it lies. */
  lemma RemovalIsAuthorized(ps: Parsers, worlds: seq<World>, moves: seq<Move>, k: nat, a: Addr)
    requires History(ps, worlds, moves) && k < |moves|
    requires a in worlds[k].sys.records && a !in worlds[k + 1].sys.records
    ensures moves[k].DeleteMove? && DeletesAt(ps, moves[k].d, moves[k].byId) == At(a)
    ensures moves[k].d.who.Some? ==>
              var asker := moves[k].d.who.value;
              && Logged(worlds[k].log, asker)
              && (asker.cred.pid != IAAS_PROVIDER || NoneNamesProvider(worlds[k].log) ==> InReach(asker, a))
  {
    HistoryIsSound(ps, worlds, moves, k);
  }

  /** The pid a range deletion names is not checked: with any other pid in its place the request
      deletes at the same address, or is refused in the same way. */
  lemma DeletedPidUnchecked(ps: Parsers, d: Deletion, pid: string, byId: Answer)
    requires !d.how.Lazily? && d.values != []
    ensures DeletesAt(ps, d.(values := d.values[0 := pid]), byId) == DeletesAt(ps, d, byId)
  {
  }

  /** After a delete the cache still knows an instance by its pid exactly if the delete named another. */
  lemma KnownAfterDeleteIff(v: View, a: Addr, pid: string, p: string, search: Option<seq<CachedInstance>>)
    requires p in v.pids
    ensures PidStart(DelView(v, a, pid), p, search) == Answered(Found(v.pids[p])) <==> pid != p
  {
  }

  /** A lazy deletion by pid deletes the instance's range and pid. One by address names the address
      text as the pid: every instance whose pid is not such a text stays known, the deleted one too. */
  lemma LazyDeletion(ps: Parsers, d: Deletion, byId: Answer, v: View, search: Option<seq<CachedInstance>>)
    requires d.how.Lazily? && DeletesAt(ps, d, byId).At?
    ensures var a := DeletesAt(ps, d, byId).a;
            var v' := DelView(v, a, d.values[0]);
            if AsksForPid(ps, d) then byId.Found? && a == byId.inst.addr && d.values[0] !in v'.pids
            else
              && ps.addr(d.values[0]) == Some(a)
              && forall p :: p in v.pids && ps.addr(p).None? ==> PidStart(v', p, search) == Answered(Found(v.pids[p]))
  {
  }

  /** So an instance that lazily deletes itself by its address stays known by its pid, without a range. */
  lemma LazyByAddressStaysKnown(ps: Parsers, inst: CachedInstance, text: string, byId: Answer,
                                search: Option<seq<CachedInstance>>)
    requires ps.addr(text) == Some(inst.addr) && ps.addr(inst.cred.pid).None?
    ensures var d := Deletion(Some(inst), [text], Lazily);
            var v := DelView(PutView(View(map[], map[]), inst), inst.addr, text);
            && DeletesAt(ps, d, byId) == At(inst.addr)
            && inst.addr !in v.ranges && PidStart(v, inst.cred.pid, search) == Answered(Found(inst))
  {
  }

  // ---------------------------------------------------------------- ancestors and descendants

  /** Creation `j` was asked for by the instance that creation `i` made. */
  ghost predicate AskedBy(log: seq<Creation>, i: nat, j: nat)
    requires i < |log| && j < |log|
  {
    log[j].who == Some(log[i].inst)
  }

  /** Creation `j` is recorded with the pid of creation `i` as its parent. */
  ghost predicate ChildOf(log: seq<Creation>, i: nat, j: nat)
    requires i < |log| && j < |log|
  {
    log[j].inst.cred.ppid == log[i].inst.cred.pid
  }

  /** Positions in the log, none of which but perhaps the last is of an instance in the provider's name. */
  ghost predicate Path(log: seq<Creation>, path: seq<nat>) {
    && |path| > 0 && (forall m :: 0 <= m < |path| ==> path[m] < |log|)
    && forall m :: 0 <= m < |path| - 1 ==> log[path[m]].inst.cred.pid != IAAS_PROVIDER
  }

  /** Each creation on the path was asked for by the one before it. */
  ghost predicate Lineage(log: seq<Creation>, path: seq<nat>) {
    Path(log, path) && forall m :: 0 <= m < |path| - 1 ==> AskedBy(log, path[m], path[m + 1])
  }

  ghost predicate UniquePids(log: seq<Creation>) {
    forall i, j :: 0 <= i < j < |log| ==> log[i].inst.cred.pid != log[j].inst.cred.pid
  }

  /** With unique pids the recorded parents are the instances that asked. */
  lemma ParentIsAsker(log: seq<Creation>, path: seq<nat>)
    requires SoundLog(log) && UniquePids(log) && Path(log, path)
    ensures Lineage(log, path) <==> forall m :: 0 <= m < |path| - 1 ==> ChildOf(log, path[m], path[m + 1])
  {
    forall m | 0 <= m < |path| - 1
      ensures AskedBy(log, path[m], path[m + 1]) <==> ChildOf(log, path[m], path[m + 1])
    {
    }
  }

  /** A child is a normal instance in the reach of the one that asked for it, and has it as parent. */
  lemma ChildIsContained(log: seq<Creation>, i: nat, j: nat)
    requires SoundLog(log) && i < |log| && j < |log| && AskedBy(log, i, j)
    requires log[i].inst.cred.pid != IAAS_PROVIDER
    ensures ChildOf(log, i, j) && log[j].inst.cred.kind != VM_INSTANCE_TYPE
    ensures InReach(log[i].inst, log[j].inst.addr)
  {
  }

  /** All ports of the target are ports of the range at the same IP; and so are its two ends, if they
      are in order. */
  ghost predicate PortsInside(t: Addr, s: Addr) {
    && (forall ip, port :: t.Contains(ip, port) ==> s.Contains(ip, port))
    && (t.lport <= t.rport ==> EndsInside(t, s))
  }

  predicate EndsInside(t: Addr, s: Addr) {
    s.Contains(t.ip, t.lport) && s.Contains(t.ip, t.rport)
  }

  /** Every transitive descendant of a normal instance is at its IP, inside its range: by the bounds
      it names, and with all its ports and, if its bounds are in order, both its ends. */
  lemma {:induction false} NormalDescendants(log: seq<Creation>, path: seq<nat>)
    requires SoundLog(log) && Lineage(log, path)
    requires log[path[0]].inst.cred.kind != VM_INSTANCE_TYPE
    ensures log[path[|path| - 1]].inst.addr.Within(log[path[0]].inst.addr)
    ensures PortsInside(log[path[|path| - 1]].inst.addr, log[path[0]].inst.addr)
  {
    if |path| > 1 {
      assert AskedBy(log, path[0], path[0 + 1]);
      ChildIsContained(log, path[0], path[1]);
      assert Lineage(log, path[1..]) by {
        forall m | 0 <= m < |path[1..]| - 1
          ensures AskedBy(log, path[1..][m], path[1..][m + 1])
        {
          assert AskedBy(log, path[m + 1], path[m + 1 + 1]);
        }
      }
      NormalDescendants(log, path[1..]);
    }
  }

  /** Every transitive descendant of a VM is inside its range at its IP, or in its network. */
  lemma VmDescendants(log: seq<Creation>, path: seq<nat>)
    requires SoundLog(log) && Lineage(log, path)
    ensures var vm, d := log[path[0]].inst, log[path[|path| - 1]].inst;
            (d.addr.Within(vm.addr) && PortsInside(d.addr, vm.addr)) || ByCidr(vm, d.addr)
  {
    if |path| > 1 {
      assert AskedBy(log, path[0], path[0 + 1]);
      ChildIsContained(log, path[0], path[1]);
      assert Lineage(log, path[1..]) by {
        forall m | 0 <= m < |path[1..]| - 1
          ensures AskedBy(log, path[1..][m], path[1..][m + 1])
        {
          assert AskedBy(log, path[m + 1], path[m + 1 + 1]);
        }
      }
      NormalDescendants(log, path[1..]);
    }
  }

  lemma StepsAreContained(log: seq<Creation>, path: seq<nat>)
    requires SoundLog(log) && Lineage(log, path)
    ensures forall m :: 0 < m < |path| ==>
              && log[path[m]].inst.cred.kind != VM_INSTANCE_TYPE
              && InReach(log[path[m - 1]].inst, log[path[m]].inst.addr)
  {
    forall m | 0 < m < |path|
      ensures log[path[m]].inst.cred.kind != VM_INSTANCE_TYPE
      ensures InReach(log[path[m - 1]].inst, log[path[m]].inst.addr)
    {
      assert AskedBy(log, path[m - 1], path[m - 1 + 1]);
      ChildIsContained(log, path[m - 1], path[m]);
    }
  }

  /** On a chain of creations only the first step can leave its creator's range, and then the
      creator is a VM, created in the provider's name. */
  lemma CidrRuleUsedOnce(log: seq<Creation>, path: seq<nat>, m: nat)
    requires SoundLog(log) && Lineage(log, path) && m < |path| - 1
    requires !log[path[m + 1]].inst.addr.Within(log[path[m]].inst.addr)
    ensures m == 0 && log[path[0]].inst.cred.kind == VM_INSTANCE_TYPE && log[path[0]].InProvidersName()
  {
    StepsAreContained(log, path);
  }

  /** Over whole histories: all descendants of every created instance, up to the first that takes the
      provider's name, stay within its range, or, if it is a VM, within its range or its network. */
  lemma DelegationContainment(ps: Parsers, worlds: seq<World>, moves: seq<Move>, k: nat, path: seq<nat>)
    requires History(ps, worlds, moves) && k < |worlds|
    requires Lineage(worlds[k].log, path)
    ensures var log := worlds[k].log;
            var a, d := log[path[0]].inst, log[path[|path| - 1]].inst;
            || (d.addr.Within(a.addr) && PortsInside(d.addr, a.addr))
            || (a.cred.kind == VM_INSTANCE_TYPE && ByCidr(a, d.addr))
  {
    HistoryIsSound(ps, worlds, moves, k);
    VmDescendants(worlds[k].log, path);
  }

  /** A target the range rule admits has all its ports in the creator's range. Its two ends are in
      every range that admits it exactly when the request names them in order. */
  lemma WithinPorts(t: Addr)
    ensures forall s: Addr :: t.Within(s) ==> PortsInside(t, s)
    ensures (forall s: Addr :: t.Within(s) ==> EndsInside(t, s)) <==> t.lport <= t.rport
  {
    if forall s: Addr :: t.Within(s) ==> EndsInside(t, s) {
      assert t.Within(t) && EndsInside(t, t);
    }
  }

  /** A target named without an upper port passes the range rule from outside the range. */
  lemma OpenTargetPasses(ip: Ip)
    ensures var who := CachedInstance(Addr(ip, 10, 20), InstanceCred("p", IAAS_PROVIDER, None, NORMAL_INSTANCE_TYPE));
            var t := Addr(ip, 5000, -1);
            Authorize("p", Some(who), t) == STATUS_OK && !who.addr.Contains(ip, t.lport)
  {
  }
}
