/** One cache of instances over the shared store: write-through puts and deletes, reload on a miss. */
module PrincipalCache {
  import opened Principals
  import opened PrincipalMap
  import opened NetMap

  // ---------------------------------------------------------------- the steps, on values

  /** What a lookup gives its caller. `NilDereference` is the crash of copying a missing instance. */
  datatype Answer = Found(inst: CachedInstance) | Refused(status: int) | NilDereference

  function ReloadView(v: View, docs: seq<CachedInstance>): View {
    if docs == [] then v
    else PutView(ReloadView(v, docs[..|docs| - 1]), docs[|docs| - 1])
  }

  /** The instance the pid table has for the owner of a registered range. */
  function Deref(v: View, a: Addr): Answer
    requires a in v.ranges
  {
    var p := v.ranges[a].p;
    if p in v.pids then Found(v.pids[p]) else NilDereference
  }

  /** What the environment decides in an address lookup: which match the tree gives first, whether
      the store answers and in which order, and which match the reloaded tree gives. */
  datatype AddrChoice = AddrChoice(first: Option<Addr>, fetch: Option<seq<CachedInstance>>, second: Option<Addr>)

  ghost predicate AddrPossible(v: View, records: Records, ip: Ip, port: int, c: AddrChoice) {
    && IndexAnswer(v.ranges, ip, port, c.first)
    && (c.first.None? && c.fetch.Some? ==>
          && Lists(records, AtIp(ip), c.fetch.value)
          && IndexAnswer(ReloadView(v, c.fetch.value).ranges, ip, port, c.second))
  }

  function AddrStep(v: View, ghost records: Records, ghost ip: Ip, ghost port: int, c: AddrChoice): (View, Answer)
    requires AddrPossible(v, records, ip, port, c)
  {
    if c.first.Some? then (v, Deref(v, c.first.value))
    else if c.fetch.None? then (v, Refused(STATUS_INTERNAL_ERROR))
    else
      var v' := ReloadView(v, c.fetch.value);
      if c.second.None? then (v', Refused(STATUS_NOT_FOUND)) else (v', Deref(v', c.second.value))
  }

  /** A pid lookup either answers at once, or has found a record and goes on to reload its IP. */
  datatype PidSearch = Answered(answer: Answer) | Reloading(inst: CachedInstance)

  /** `search` is what the store gave for the pid, if it was asked and answered. */
  function PidStart(v: View, pid: string, search: Option<seq<CachedInstance>>): PidSearch {
    if pid in v.pids then Answered(Found(v.pids[pid]))
    else if search.None? then Answered(Refused(STATUS_INTERNAL_ERROR))
    else if search.value == [] then Answered(Refused(STATUS_NOT_FOUND))
    else Reloading(search.value[0])
  }

  function PidFinish(v: View, inst: CachedInstance, fetch: Option<seq<CachedInstance>>): (View, Answer) {
    if fetch.None? then (v, Refused(STATUS_INTERNAL_ERROR)) else (ReloadView(v, fetch.value), Found(inst))
  }

  /** The store has a record with the pid. */
  ghost predicate Stored(records: Records, pid: string) {
    exists a :: a in records && records[a].pid == pid
  }

  /** The instance is such a record. */
  ghost predicate RecordOf(records: Records, pid: string, inst: CachedInstance) {
    inst.cred.pid == pid && inst.addr in records && records[inst.addr] == inst.cred
  }

  /** One outcome of an address lookup: an answer and the view after it. `reachable` says whether the
      store answers when it is asked. */
  ghost predicate AddrAnswers(v: View, records: Records, ip: Ip, port: int, reachable: bool, v': View, r: Answer) {
    exists c :: AddrChosen(v, records, ip, port, reachable, c) && (v', r) == AddrStep(v, records, ip, port, c)
  }

  ghost predicate AddrChosen(v: View, records: Records, ip: Ip, port: int, reachable: bool, c: AddrChoice) {
    AddrPossible(v, records, ip, port, c) && (c.first.None? ==> c.fetch.Some? == reachable)
  }

  /** One outcome of a pid lookup; `search` and `fetch` are what the store gave, if it was asked and
      answered. */
  ghost predicate PidPossible(v: View, records: Records, pid: string, searchable: bool, reachable: bool,
                              search: Option<seq<CachedInstance>>, fetch: Option<seq<CachedInstance>>,
                              v': View, r: Answer)
  {
    && (pid !in v.pids ==> search.Some? == searchable)
    && (search.Some? ==> Lists(records, WithPid(pid), search.value))
    && match PidStart(v, pid, search)
       case Answered(answer) => r == answer && v' == v
       case Reloading(inst) =>
         && fetch.Some? == reachable && (fetch.Some? ==> Lists(records, AtIp(inst.addr.ip), fetch.value))
         && (v', r) == PidFinish(v, inst, fetch)
  }

  ghost predicate PidAnswers(v: View, records: Records, pid: string, searchable: bool, reachable: bool, v': View,
                             r: Answer)
  {
    exists search, fetch :: PidPossible(v, records, pid, searchable, reachable, search, fetch, v', r)
  }

  /** A pid search that succeeds finds something exactly if the store has a record with the pid. */
  lemma ListsStored(records: Records, pid: string, docs: seq<CachedInstance>)
    requires Lists(records, WithPid(pid), docs)
    ensures docs != [] <==> Stored(records, pid)
    ensures docs != [] ==> RecordOf(records, pid, docs[0])
  {
    if docs != [] {
      assert docs[0] in docs;
    }
    if a :| a in records && records[a].pid == pid {
      assert WithPid(pid).Matches(CachedInstance(a, records[a]));
    }
  }

  /** A pid lookup answers from the table if it can; else with a stored record of that pid if the
      store has one and answers both requests, with 404 if it has none and answers the search, and
      with 500 if it fails. */
  lemma PidLookupDecided(v: View, records: Records, pid: string, searchable: bool, reachable: bool, v': View, r: Answer)
    requires PidAnswers(v, records, pid, searchable, reachable, v', r)
    ensures pid in v.pids ==> r == Found(v.pids[pid]) && v' == v
    ensures r == Refused(STATUS_NOT_FOUND) <==> pid !in v.pids && searchable && !Stored(records, pid)
    ensures r == Refused(STATUS_INTERNAL_ERROR) <==>
            pid !in v.pids && (!searchable || (Stored(records, pid) && !reachable))
    ensures pid !in v.pids && searchable && reachable && Stored(records, pid) ==>
              r.Found? && RecordOf(records, pid, r.inst)
    ensures r.Refused? ==> v' == v && r.status != STATUS_OK
    ensures !r.NilDereference?
  {
    var search, fetch :| PidPossible(v, records, pid, searchable, reachable, search, fetch, v', r);
    if search.Some? {
      ListsStored(records, pid, search.value);
    }
  }

  function PutRecord(records: Records, inst: CachedInstance, w: WriteOutcome): Records {
    if w.Applied() then records[inst.addr := inst.cred] else records
  }

  function DelRecord(records: Records, a: Addr, w: WriteOutcome): Records {
    if w.Applied() then records - {a} else records
  }

  // ---------------------------------------------------------------- the cache

  function Copy(inst: CachedInstance): (r: CachedInstance)
    ensures r == inst
  {
    CachedInstance(Addr(inst.addr.ip, inst.addr.lport, inst.addr.rport),
                   InstanceCred(inst.cred.pid, inst.cred.ppid, inst.cred.cidr, inst.cred.kind))
  }

  class CacheImpl {
    const conn: RiakConn
    const pmap: Pmap

    ghost predicate Valid()
      reads this, conn, pmap
    {
      conn.Valid() && pmap.Valid()
    }

    constructor (c: RiakConn)
      requires c.Valid()
      ensures Valid() && conn == c && fresh(pmap) && pmap.Contents() == View(map[], map[])
    {
      conn := c;
      pmap := new Pmap();
    }

    method ReloadCache(ip: Ip, reachable: bool) returns (status: int, ghost fetch: Option<seq<CachedInstance>>)
      requires Valid()
      modifies pmap
      ensures Valid()
      ensures fetch.Some? == reachable && (fetch.Some? ==> Lists(conn.records, AtIp(ip), fetch.value))
      ensures status == if fetch.Some? then STATUS_OK else STATUS_INTERNAL_ERROR
      ensures pmap.Contents() ==
              if fetch.Some? then ReloadView(old(pmap.Contents()), fetch.value) else old(pmap.Contents())
    {
      var pmaps := conn.GetAllNetID(ip, reachable);
      fetch := pmaps;
      if pmaps.None? {
        return STATUS_INTERNAL_ERROR, fetch;
      }
      ghost var v := pmap.Contents();
      for i := 0 to |pmaps.value|
        invariant Valid()
        invariant pmap.Contents() == ReloadView(v, pmaps.value[..i])
      {
        assert pmaps.value[..i + 1][..i] == pmaps.value[..i];
        pmap.PutCachedInstance(pmaps.value[i]);
      }
      assert pmaps.value[..|pmaps.value|] == pmaps.value;
      status := STATUS_OK;
    }

    /** The address lookup. `reachable` says whether the store would answer. */
    method GetInstanceFromNetMap(ip: Ip, port: int, reachable: bool) returns (r: Answer, ghost c: AddrChoice)
      requires Valid()
      modifies pmap
      ensures Valid()
      ensures AddrChosen(old(pmap.Contents()), conn.records, ip, port, reachable, c)
      ensures (pmap.Contents(), r) == AddrStep(old(pmap.Contents()), conn.records, ip, port, c)
    {
      var index := pmap.GetIndex(ip, port);
      c := AddrChoice(if index.Some? then Some(RangeOf(ip, index.value)) else None, None, None);
      if index.None? {
        ghost var fetch;
        var status;
        status, fetch := ReloadCache(ip, reachable);
        c := c.(fetch := fetch);
        if status != STATUS_OK {
          return Refused(status), c;
        }
        index := pmap.GetIndex(ip, port);
        c := c.(second := if index.Some? then Some(RangeOf(ip, index.value)) else None);
        if index.None? {
          return Refused(STATUS_NOT_FOUND), c;
        }
      }
      var result := pmap.GetCachedInstance(index.value.p);
      if result.None? {
        return NilDereference, c;
      }
      r := Found(Copy(result.value));
    }

    /** The pid lookup; the store may fail either of its two requests. */
    method GetInstanceFromID(pid: string, searchable: bool, reachable: bool)
      returns (r: Answer, ghost search: Option<seq<CachedInstance>>, ghost fetch: Option<seq<CachedInstance>>)
      requires Valid()
      modifies pmap
      ensures Valid()
      ensures PidPossible(old(pmap.Contents()), conn.records, pid, searchable, reachable, search, fetch,
                          pmap.Contents(), r)
    {
      search, fetch := None, None;
      var inst := pmap.GetCachedInstance(pid);
      if inst.None? {
        var hits := conn.SearchIDNet(pid, searchable);
        search := hits;
        if hits.None? {
          return Refused(STATUS_INTERNAL_ERROR), search, fetch;
        }
        if |hits.value| == 0 {
          return Refused(STATUS_NOT_FOUND), search, fetch;
        }
        var status;
        status, fetch := ReloadCache(hits.value[0].addr.ip, reachable);
        if status != STATUS_OK {
          return Refused(status), search, fetch;
        }
        inst := Some(hits.value[0]);
      }
      r := Found(inst.value);
    }

    /** Caches first, then writes through: a failing write leaves the instance cached. */
    method PutInstance(inst: CachedInstance, w: WriteOutcome) returns (status: int)
      requires Valid()
      modifies pmap, conn
      ensures Valid()
      ensures pmap.Contents() == PutView(old(pmap.Contents()), inst)
      ensures conn.records == PutRecord(old(conn.records), inst, w)
      ensures status == if w.Done? then STATUS_OK else STATUS_INTERNAL_ERROR
    {
      pmap.PutCachedInstance(inst);
      var ok := conn.PutNetIDMap(inst.addr, inst.cred, w);
      if !ok {
        return STATUS_INTERNAL_ERROR;
      }
      status := STATUS_OK;
    }

    method DelInstance(a: Addr, pid: string, w: WriteOutcome) returns (status: int)
      requires Valid()
      modifies pmap, conn
      ensures Valid()
      ensures pmap.Contents() == DelView(old(pmap.Contents()), a, pid)
      ensures conn.records == DelRecord(old(conn.records), a, w)
      ensures status == if w.Done? then STATUS_OK else STATUS_INTERNAL_ERROR
    {
      pmap.DelCachedInstanceAlt(a, pid);
      var ok := conn.DelNetIDMap(a, w);
      if !ok {
        return STATUS_INTERNAL_ERROR;
      }
      status := STATUS_OK;
    }
  }
}
