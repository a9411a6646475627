/** Many caches over one store: what holds in every interleaving of their steps. */
module CacheRuns {
  import opened Principals
  import opened PrincipalMap
  import opened NetMap
  import opened PrincipalCache

  // ---------------------------------------------------------------- the system

  /** A cache, and the record it found if it is between the two store requests of a pid lookup. */
  datatype Client = Client(view: View, pending: Option<CachedInstance>)

  datatype Sys = Sys(clients: seq<Client>, records: Records)

  /** One atomic step of a cache. A pid lookup that misses takes two: its search, then its reload. */
  datatype Event =
    | Put(inst: CachedInstance, w: WriteOutcome)
    | Del(a: Addr, pid: string, w: WriteOutcome)
    | ByAddr(ip: Ip, port: int, choice: AddrChoice)
    | ByPid(pid: string, search: Option<seq<CachedInstance>>)
    | Resume(fetch: Option<seq<CachedInstance>>)

  datatype Act = Act(who: nat, ev: Event)

  /** The store gives true answers, and a cache in the middle of a lookup does nothing else. */
  ghost predicate Possible(s: Sys, act: Act) {
    && act.who < |s.clients|
    && var c := s.clients[act.who];
       match act.ev
       case Put(_, _) => c.pending.None?
       case Del(_, _, _) => c.pending.None?
       case ByAddr(ip, port, choice) => c.pending.None? && AddrPossible(c.view, s.records, ip, port, choice)
       case ByPid(pid, search) =>
         c.pending.None? && (search.Some? ==> Lists(s.records, WithPid(pid), search.value))
       case Resume(fetch) =>
         c.pending.Some? && (fetch.Some? ==> Lists(s.records, AtIp(c.pending.value.addr.ip), fetch.value))
  }

  ghost function NextClient(s: Sys, act: Act): Client
    requires Possible(s, act)
  {
    var c := s.clients[act.who];
    match act.ev
    case Put(inst, _) => c.(view := PutView(c.view, inst))
    case Del(a, pid, _) => c.(view := DelView(c.view, a, pid))
    case ByAddr(ip, port, choice) => c.(view := AddrStep(c.view, s.records, ip, port, choice).0)
    case ByPid(pid, search) =>
      (match PidStart(c.view, pid, search)
       case Answered(_) => c
       case Reloading(inst) => c.(pending := Some(inst)))
    case Resume(fetch) => Client(PidFinish(c.view, c.pending.value, fetch).0, None)
  }

  ghost function NextRecords(s: Sys, act: Act): Records {
    match act.ev
    case Put(inst, w) => PutRecord(s.records, inst, w)
    case Del(a, _, w) => DelRecord(s.records, a, w)
    case _ => s.records
  }

  ghost function Next(s: Sys, act: Act): Sys
    requires Possible(s, act)
  {
    Sys(s.clients[act.who := NextClient(s, act)], NextRecords(s, act))
  }

  /** What the caller of a lookup is told, if the step tells it anything. */
  ghost function AnswerOf(s: Sys, act: Act): Option<Answer>
    requires Possible(s, act)
  {
    var c := s.clients[act.who];
    match act.ev
    case Put(_, _) => None
    case Del(_, _, _) => None
    case ByAddr(ip, port, choice) => Some(AddrStep(c.view, s.records, ip, port, choice).1)
    case ByPid(pid, search) =>
      (match PidStart(c.view, pid, search)
       case Answered(answer) => Some(answer)
       case Reloading(_) => None)
    case Resume(fetch) => Some(PidFinish(c.view, c.pending.value, fetch).1)
  }

  ghost predicate IsRun(states: seq<Sys>, acts: seq<Act>) {
    && |states| == |acts| + 1
    && forall k :: 0 <= k < |acts| ==> Possible(states[k], acts[k]) && states[k + 1] == Next(states[k], acts[k])
  }

  /** Empty caches over any store. */
  ghost predicate Fresh(s: Sys) {
    forall i :: 0 <= i < |s.clients| ==> s.clients[i] == Client(View(map[], map[]), None)
  }

  /** What a put or delete does to its cache does not depend on the outcome of the write; what it does
      to the store does only if the write fails without effect, and then it does nothing. */
  lemma WriteOutcomes(s: Sys, who: nat, inst: CachedInstance, pid: string, w: WriteOutcome)
    requires who < |s.clients| && s.clients[who].pending.None?
    ensures var put, done := Next(s, Act(who, Put(inst, w))), Next(s, Act(who, Put(inst, Done)));
            && put.clients == done.clients && inst.addr in done.records && done.records[inst.addr] == inst.cred
            && put.records == if w == Failed(false) then s.records else done.records
    ensures var del, done := Next(s, Act(who, Del(inst.addr, pid, w))), Next(s, Act(who, Del(inst.addr, pid, Done)));
            && del.clients == done.clients && inst.addr !in done.records
            && del.records == if w == Failed(false) then s.records else done.records
  {
  }

  // ---------------------------------------------------------------- when a dereference is safe

  /** Every range's owner is in the pid table. */
  ghost predicate NilFree(v: View) {
    forall a :: a in v.ranges ==> v.ranges[a].p in v.pids
  }

  /** A range that a reload adds has its owner in the pid table. */
  lemma {:induction false} ReloadOwners(v: View, docs: seq<CachedInstance>)
    ensures var v' := ReloadView(v, docs);
            && (forall p :: p in v.pids ==> p in v'.pids)
            && (forall a :: a in v'.ranges && a !in v.ranges ==> v'.ranges[a].p in v'.pids)
  {
    if docs != [] {
      ReloadOwners(v, docs[..|docs| - 1]);
    }
  }

  /** A lookup can crash exactly when the owner of an innermost cached range with the port is missing;
      one that has to reload never does. */
  lemma CrashIff(v: View, records: Records, ip: Ip, port: int)
    ensures (exists c :: AddrPossible(v, records, ip, port, c) && AddrStep(v, records, ip, port, c).1 == NilDereference)
       <==> (exists a :: Innermost(v.ranges, a, ip, port) && v.ranges[a].p !in v.pids)
  {
    if a :| Innermost(v.ranges, a, ip, port) && v.ranges[a].p !in v.pids {
      var c := AddrChoice(Some(a), None, None);
      assert AddrPossible(v, records, ip, port, c) && AddrStep(v, records, ip, port, c).1 == NilDereference;
    }
    if c :| AddrPossible(v, records, ip, port, c) && AddrStep(v, records, ip, port, c).1 == NilDereference {
      if c.first.None? {
        ReloadOwners(v, c.fetch.value);
        assert false;
      }
      assert Innermost(v.ranges, c.first.value, ip, port) && v.ranges[c.first.value].p !in v.pids;
    }
  }

  /** No other range of the map belongs to the pid. */
  ghost predicate OwnsOnly(v: View, pid: string, a: Addr) {
    forall b :: b in v.ranges && b != a ==> v.ranges[b].p != pid
  }

  lemma {:induction false} ReloadKeepsNilFree(v: View, docs: seq<CachedInstance>)
    requires NilFree(v)
    ensures NilFree(ReloadView(v, docs))
  {
    if docs != [] {
      ReloadKeepsNilFree(v, docs[..|docs| - 1]);
    }
  }

  /** A delete leaves an owner missing exactly when another range belongs to the pid it names. */
  lemma DelKeepsNilFreeIff(v: View, a: Addr, pid: string)
    requires NilFree(v)
    ensures NilFree(DelView(v, a, pid)) <==> OwnsOnly(v, pid, a)
  {
    var v' := DelView(v, a, pid);
    if NilFree(v') {
      forall b | b in v.ranges && b != a
        ensures v.ranges[b].p != pid
      {
        assert b in v'.ranges;
      }
    }
  }

  ghost predicate AllNilFree(s: Sys) {
    forall i :: 0 <= i < |s.clients| ==> NilFree(s.clients[i].view)
  }

  /** If the step is a delete, no other range of its cache belongs to the pid it names. */
  ghost predicate NamesOwner(s: Sys, act: Act)
    requires Possible(s, act)
  {
    act.ev.Del? ==> OwnsOnly(s.clients[act.who].view, act.ev.pid, act.ev.a)
  }

  lemma NilFreeStep(s: Sys, act: Act)
    requires AllNilFree(s) && Possible(s, act)
    ensures AllNilFree(Next(s, act)) <==> NamesOwner(s, act)
    ensures AnswerOf(s, act).Some? ==> !AnswerOf(s, act).value.NilDereference?
  {
    var v := s.clients[act.who].view;
    assert Next(s, act).clients[act.who] == NextClient(s, act);
    match act.ev {
      case Put(inst, _) =>
      case Del(a, pid, _) =>
        DelKeepsNilFreeIff(v, a, pid);
      case ByAddr(_, _, choice) =>
        if choice.first.None? && choice.fetch.Some? { ReloadKeepsNilFree(v, choice.fetch.value); }
      case ByPid(_, _) =>
      case Resume(fetch) =>
        if fetch.Some? { ReloadKeepsNilFree(v, fetch.value); }
    }
  }

  lemma {:induction false} NilFreeThroughout(states: seq<Sys>, acts: seq<Act>, k: nat)
    requires IsRun(states, acts) && k < |states| && Fresh(states[0])
    requires forall i :: 0 <= i < |acts| ==> NamesOwner(states[i], acts[i])
    ensures AllNilFree(states[k])
  {
    if k > 0 {
      NilFreeThroughout(states, acts, k - 1);
      NilFreeStep(states[k - 1], acts[k - 1]);
    }
  }

  /** Any number of caches over any store, any pids, any interleaving, any failures: an owner is
      never missing in a run exactly when every delete names a pid that no other range of its cache
      belongs to. */
  lemma NilFreeRunIff(states: seq<Sys>, acts: seq<Act>)
    requires IsRun(states, acts) && Fresh(states[0])
    ensures (forall k :: 0 <= k < |states| ==> AllNilFree(states[k]))
       <==> (forall k :: 0 <= k < |acts| ==> NamesOwner(states[k], acts[k]))
  {
    if forall k :: 0 <= k < |states| ==> AllNilFree(states[k]) {
      forall k | 0 <= k < |acts|
        ensures NamesOwner(states[k], acts[k])
      {
        assert AllNilFree(states[k]) && AllNilFree(states[k + 1]);
        NilFreeStep(states[k], acts[k]);
      }
    }
    if forall k :: 0 <= k < |acts| ==> NamesOwner(states[k], acts[k]) {
      forall k | 0 <= k < |states|
        ensures AllNilFree(states[k])
      {
        NilFreeThroughout(states, acts, k);
      }
    }
  }

  /** In such a run no lookup dereferences a missing instance. */
  lemma NeverNull(states: seq<Sys>, acts: seq<Act>, k: nat)
    requires IsRun(states, acts) && Fresh(states[0]) && k < |acts|
    requires forall i :: 0 <= i < |acts| ==> NamesOwner(states[i], acts[i])
    ensures AnswerOf(states[k], acts[k]).Some? ==> !AnswerOf(states[k], acts[k]).value.NilDereference?
  {
    NilFreeThroughout(states, acts, k);
    NilFreeStep(states[k], acts[k]);
  }

  /** A delete that names another instance's pid leaves a lookup that crashes. */
  lemma MismatchedDeleteCrashes(ip: Ip)
    ensures
      var inst := CachedInstance(Addr(ip, 10, 20), InstanceCred("p", "q", None, NORMAL_INSTANCE_TYPE));
      var v := DelView(PutView(View(map[], map[]), inst), Addr(ip, 30, 40), "p");
      var c := AddrChoice(Some(inst.addr), None, None);
      AddrPossible(v, map[], ip, 15, c) && AddrStep(v, map[], ip, 15, c).1 == NilDereference
  {
  }

  /** So does a delete that names a pid with its current address, if the pid was put at another
      address before. */
  lemma MovedPidCrashes(ip: Ip)
    ensures
      var cred := InstanceCred("p", "q", None, NORMAL_INSTANCE_TYPE);
      var first, second := CachedInstance(Addr(ip, 10, 20), cred), CachedInstance(Addr(ip, 30, 40), cred);
      var v := PutView(PutView(View(map[], map[]), first), second);
      var c := AddrChoice(Some(first.addr), None, None);
      && v.pids["p"].addr == second.addr && NilFree(v)
      && var v' := DelView(v, second.addr, "p");
         AddrPossible(v', map[], ip, 15, c) && AddrStep(v', map[], ip, 15, c).1 == NilDereference
  {
  }

  // ---------------------------------------------------------------- when it gives the right instance

  /** Every range's owner is in the pid table, with that very range as its address. */
  ghost predicate Sound(v: View) {
    forall a :: a in v.ranges ==> v.ranges[a].p in v.pids && v.pids[v.ranges[a].p].addr == a
  }

  /** A put keeps every owner at its range exactly when no other range belongs to the pid it
      caches. */
  lemma PutKeepsSoundIff(v: View, inst: CachedInstance)
    requires Sound(v)
    ensures Sound(PutView(v, inst)) <==> OwnsOnly(v, inst.cred.pid, inst.addr)
  {
    var v' := PutView(v, inst);
    if Sound(v') {
      forall a | a in v.ranges && a != inst.addr
        ensures v.ranges[a].p != inst.cred.pid
      {
        assert a in v'.ranges;
      }
    }
  }

  /** A delete keeps every owner at its range exactly when no other range belongs to the pid it
      names. */
  lemma DelKeepsSoundIff(v: View, a: Addr, pid: string)
    requires Sound(v)
    ensures Sound(DelView(v, a, pid)) <==> OwnsOnly(v, pid, a)
  {
    var v' := DelView(v, a, pid);
    if Sound(v') {
      forall b | b in v.ranges && b != a
        ensures v.ranges[b].p != pid
      {
        assert b in v'.ranges;
      }
    }
  }

  // ---------------------------------------------------------------- one home address per pid

  ghost predicate RecordsHomed(home: string -> Addr, records: Records) {
    forall a :: a in records ==> home(records[a].pid) == a
  }

  ghost predicate InstanceHomed(home: string -> Addr, inst: CachedInstance) {
    home(inst.cred.pid) == inst.addr
  }

  ghost predicate ViewHomed(home: string -> Addr, v: View) {
    && Sound(v)
    && (forall p :: p in v.pids ==> v.pids[p].cred.pid == p && InstanceHomed(home, v.pids[p]))
  }

  ghost predicate Homed(home: string -> Addr, s: Sys) {
    && RecordsHomed(home, s.records)
    && forall i :: 0 <= i < |s.clients| ==>
         && ViewHomed(home, s.clients[i].view)
         && (s.clients[i].pending.Some? ==> InstanceHomed(home, s.clients[i].pending.value))
  }

  /** A put registers a pid at its home, and a delete names a pid together with its home. */
  ghost predicate Disciplined(home: string -> Addr, ev: Event) {
    match ev
    case Put(inst, _) => InstanceHomed(home, inst)
    case Del(a, pid, _) => home(pid) == a
    case _ => true
  }

  lemma {:induction false} ReloadHomed(home: string -> Addr, v: View, docs: seq<CachedInstance>)
    requires ViewHomed(home, v)
    requires forall d :: d in docs ==> InstanceHomed(home, d)
    ensures ViewHomed(home, ReloadView(v, docs))
  {
    if docs != [] {
      var last := docs[|docs| - 1];
      ReloadHomed(home, v, docs[..|docs| - 1]);
      PutHomed(home, ReloadView(v, docs[..|docs| - 1]), last);
    }
  }

  lemma PutHomed(home: string -> Addr, v: View, inst: CachedInstance)
    requires ViewHomed(home, v) && InstanceHomed(home, inst)
    ensures ViewHomed(home, PutView(v, inst))
  {
  }

  lemma HomedStep(home: string -> Addr, s: Sys, act: Act)
    requires Homed(home, s) && Possible(s, act) && Disciplined(home, act.ev)
    ensures Homed(home, Next(s, act))
  {
    var c := s.clients[act.who];
    match act.ev {
      case ByAddr(ip, port, choice) =>
        if choice.first.None? && choice.fetch.Some? {
          ReloadHomed(home, c.view, choice.fetch.value);
        }
      case Resume(fetch) =>
        if fetch.Some? {
          ReloadHomed(home, c.view, fetch.value);
        }
      case ByPid(pid, search) =>
        if search.Some? && search.value != [] {
          assert search.value[0] in search.value;
        }
      case _ =>
    }
  }

  lemma {:induction false} HomedThroughout(home: string -> Addr, states: seq<Sys>, acts: seq<Act>, k: nat)
    requires IsRun(states, acts) && k < |states| && Homed(home, states[0])
    requires forall i :: 0 <= i < |acts| ==> Disciplined(home, acts[i].ev)
    ensures Homed(home, states[k])
  {
    if k > 0 {
      HomedThroughout(home, states, acts, k - 1);
      HomedStep(home, states[k - 1], acts[k - 1]);
    }
  }

  /** The first step of a pid lookup: found exactly if the pid is in the table; refused with 404 exactly
      if the store answers and has no such record, with 500 exactly if it does not answer; and
      otherwise what is left to be done is to reload a stored record with that pid. */
  lemma PidStepDecided(s: Sys, act: Act)
    requires Possible(s, act) && act.ev.ByPid?
    ensures var v, pid := s.clients[act.who].view, act.ev.pid;
            var answer, pending := AnswerOf(s, act), Next(s, act).clients[act.who].pending;
            && (answer.Some? && answer.value.Found? <==> pid in v.pids)
            && (pid in v.pids ==> answer == Some(Found(v.pids[pid])))
            && (answer == Some(Refused(STATUS_NOT_FOUND)) <==>
                pid !in v.pids && act.ev.search.Some? && !Stored(s.records, pid))
            && (answer == Some(Refused(STATUS_INTERNAL_ERROR)) <==> pid !in v.pids && act.ev.search.None?)
            && (answer.None? <==> pid !in v.pids && act.ev.search.Some? && Stored(s.records, pid))
            && (answer.Some? ==> Next(s, act) == s)
            && (answer.None? ==>
                  && pending.Some? && RecordOf(s.records, pid, pending.value)
                  && Next(s, act).clients[act.who].view == v)
  {
    if act.ev.search.Some? {
      ListsStored(s.records, act.ev.pid, act.ev.search.value);
    }
  }

  /** No lookup crashes; what an address lookup finds holds the queried address, and what a pid
      lookup finds, at once or after its reload, has the pid. */
  ghost predicate RightAnswer(s: Sys, act: Act)
    requires Possible(s, act)
  {
    match act.ev
    case ByAddr(ip, port, _) =>
      (match AnswerOf(s, act).value
       case Found(inst) => inst.addr.Contains(ip, port)
       case Refused(status) => status == STATUS_NOT_FOUND || status == STATUS_INTERNAL_ERROR
       case NilDereference => false)
    case ByPid(pid, search) =>
      (match PidStart(s.clients[act.who].view, pid, search)
       case Answered(Found(inst)) => inst.cred.pid == pid
       case Answered(Refused(status)) => status == STATUS_NOT_FOUND || status == STATUS_INTERNAL_ERROR
       case Answered(NilDereference) => false
       case Reloading(inst) => inst.cred.pid == pid)
    case Resume(fetch) =>
      AnswerOf(s, act).value ==
      if fetch.Some? then Found(s.clients[act.who].pending.value) else Refused(STATUS_INTERNAL_ERROR)
    case _ => true
  }

  /** Any number of caches, any interleaving, any store failures: with one home address per pid
      every found instance is the right one. */
  lemma RightInstance(home: string -> Addr, states: seq<Sys>, acts: seq<Act>)
    requires IsRun(states, acts) && Fresh(states[0]) && RecordsHomed(home, states[0].records)
    requires forall i :: 0 <= i < |acts| ==> Disciplined(home, acts[i].ev)
    ensures forall k :: 0 <= k < |states| ==> Homed(home, states[k])
    ensures forall k :: 0 <= k < |acts| ==> RightAnswer(states[k], acts[k])
  {
    forall k | 0 <= k < |states|
      ensures Homed(home, states[k])
    {
      HomedThroughout(home, states, acts, k);
    }
    forall k | 0 <= k < |acts|
      ensures RightAnswer(states[k], acts[k])
    {
      HomedAnswers(home, states[k], acts[k]);
    }
  }

  lemma HomedAnswers(home: string -> Addr, s: Sys, act: Act)
    requires Homed(home, s) && Possible(s, act)
    ensures RightAnswer(s, act)
  {
    if act.ev.ByAddr? && act.ev.choice.first.None? && act.ev.choice.fetch.Some? {
      ReloadHomed(home, s.clients[act.who].view, act.ev.choice.fetch.value);
    }
    if act.ev.ByPid? && act.ev.search.Some? && act.ev.search.value != [] {
      assert act.ev.search.value[0] in act.ev.search.value;
    }
  }

  // ---------------------------------------------------------------- a cache against the store

  /** Only cache `w` writes, and its writes succeed. */
  ghost predicate SoleWriter(w: nat, acts: seq<Act>) {
    forall k :: 0 <= k < |acts| ==>
      match acts[k].ev
      case Put(_, out) => acts[k].who == w && out.Done?
      case Del(_, _, out) => acts[k].who == w && out.Done?
      case _ => true
  }

  /** Every cached range is in the store, with the same owner. */
  ghost predicate TracksRanges(v: View, records: Records) {
    forall a :: a in v.ranges ==> Insertable(a) && a in records && v.ranges[a] == OwnerOf(records[a])
  }

  /** And the owner's instance is the one the store has for the range. */
  ghost predicate Tracks(v: View, records: Records) {
    && TracksRanges(v, records)
    && forall a :: a in v.ranges ==>
         records[a].pid in v.pids && v.pids[records[a].pid] == CachedInstance(a, records[a])
  }

  /** Every range the store has at the IP (and the tree can hold) is cached. */
  ghost predicate Covers(v: View, records: Records, ip: Ip) {
    forall a :: a in records && a.ip == ip && Insertable(a) ==> a in v.ranges
  }

  lemma {:induction false} ReloadTracksRanges(v: View, records: Records, docs: seq<CachedInstance>)
    requires TracksRanges(v, records)
    requires forall d :: d in docs ==> d.addr in records && records[d.addr] == d.cred
    ensures TracksRanges(ReloadView(v, docs), records)
  {
    if docs != [] {
      ReloadTracksRanges(v, records, docs[..|docs| - 1]);
    }
  }

  lemma {:induction false} ReloadTracks(home: string -> Addr, v: View, records: Records, docs: seq<CachedInstance>)
    requires RecordsHomed(home, records) && Tracks(v, records)
    requires forall d :: d in docs ==> d.addr in records && records[d.addr] == d.cred
    ensures Tracks(ReloadView(v, docs), records)
  {
    if docs != [] {
      var last, before := docs[|docs| - 1], docs[..|docs| - 1];
      ReloadTracks(home, v, records, before);
      assert last in docs;
      assert home(last.cred.pid) == last.addr;
    }
  }

  lemma {:induction false} ReloadGrows(v: View, docs: seq<CachedInstance>)
    ensures forall a :: a in v.ranges ==> a in ReloadView(v, docs).ranges
    ensures forall d :: d in docs && Insertable(d.addr) ==> d.addr in ReloadView(v, docs).ranges
    ensures forall a :: a in ReloadView(v, docs).ranges ==> a in v.ranges || exists d :: d in docs && d.addr == a
  {
    if docs != [] {
      var last, before := docs[|docs| - 1], docs[..|docs| - 1];
      ReloadGrows(v, before);
      assert docs == before + [last];
    }
  }

  lemma ReloadCovers(v: View, records: Records, ip: Ip, docs: seq<CachedInstance>)
    requires Lists(records, AtIp(ip), docs)
    ensures Covers(ReloadView(v, docs), records, ip)
  {
    ReloadGrows(v, docs);
    forall a | a in records && a.ip == ip && Insertable(a)
      ensures a in ReloadView(v, docs).ranges
    {
      assert AtIp(ip).Matches(CachedInstance(a, records[a]));
      assert CachedInstance(a, records[a]) in docs;
    }
  }

  lemma TracksRangesStep(s: Sys, act: Act, w: nat)
    requires Possible(s, act) && SoleWriter(w, [act]) && w < |s.clients|
    requires TracksRanges(s.clients[w].view, s.records)
    ensures TracksRanges(Next(s, act).clients[w].view, Next(s, act).records)
  {
    var v := s.clients[w].view;
    assert [act][0] == act;
    match act.ev {
      case ByAddr(ip, port, choice) =>
        if act.who == w && choice.first.None? && choice.fetch.Some? {
          ReloadTracksRanges(v, s.records, choice.fetch.value);
        }
      case Resume(fetch) =>
        if act.who == w && fetch.Some? {
          ReloadTracksRanges(v, s.records, fetch.value);
        }
      case ByPid(_, _) =>
      case Put(inst, _) =>
      case Del(a, pid, _) =>
    }
  }

  lemma TracksStep(home: string -> Addr, s: Sys, act: Act, w: nat)
    requires Homed(home, s) && Possible(s, act) && SoleWriter(w, [act]) && w < |s.clients|
    requires Disciplined(home, act.ev)
    requires Tracks(s.clients[w].view, s.records)
    ensures Tracks(Next(s, act).clients[w].view, Next(s, act).records)
  {
    var v := s.clients[w].view;
    assert [act][0] == act;
    match act.ev {
      case ByAddr(ip, port, choice) =>
        if act.who == w && choice.first.None? && choice.fetch.Some? {
          ReloadTracks(home, v, s.records, choice.fetch.value);
        }
      case Resume(fetch) =>
        if act.who == w && fetch.Some? {
          ReloadTracks(home, v, s.records, fetch.value);
        }
      case ByPid(_, _) =>
      case Put(inst, _) =>
      case Del(a, pid, _) =>
    }
  }

  /** The step reloads the IP into cache `w`. */
  ghost predicate Reloads(s: Sys, act: Act, w: nat, ip: Ip)
    requires Possible(s, act)
  {
    && act.who == w
    && match act.ev
       case ByAddr(at, _, choice) => at == ip && choice.first.None? && choice.fetch.Some?
       case Resume(fetch) => fetch.Some? && s.clients[w].pending.value.addr.ip == ip
       case _ => false
  }

  lemma CoversStep(s: Sys, act: Act, w: nat, ip: Ip)
    requires Possible(s, act) && SoleWriter(w, [act]) && w < |s.clients|
    requires Covers(s.clients[w].view, s.records, ip) || Reloads(s, act, w, ip)
    ensures Covers(Next(s, act).clients[w].view, Next(s, act).records, ip)
  {
    var c := s.clients[w];
    assert [act][0] == act;
    if act.who == w {
      match act.ev {
        case ByAddr(at, port, choice) =>
          if choice.first.None? && choice.fetch.Some? {
            ReloadGrows(c.view, choice.fetch.value);
            if at == ip { ReloadCovers(c.view, s.records, ip, choice.fetch.value); }
          }
        case Resume(fetch) =>
          if fetch.Some? {
            ReloadGrows(c.view, fetch.value);
            if c.pending.value.addr.ip == ip { ReloadCovers(c.view, s.records, ip, fetch.value); }
          }
        case _ =>
      }
    }
  }

  lemma {:induction false} TracksThroughout(home: string -> Addr, states: seq<Sys>, acts: seq<Act>, w: nat, k: nat)
    requires IsRun(states, acts) && k < |states| && SoleWriter(w, acts)
    requires Fresh(states[0]) && RecordsHomed(home, states[0].records) && w < |states[0].clients|
    requires forall i :: 0 <= i < |acts| ==> Disciplined(home, acts[i].ev)
    ensures w < |states[k].clients| && Homed(home, states[k]) && Tracks(states[k].clients[w].view, states[k].records)
  {
    if k > 0 {
      TracksThroughout(home, states, acts, w, k - 1);
      TracksStep(home, states[k - 1], acts[k - 1], w);
      HomedStep(home, states[k - 1], acts[k - 1]);
    }
  }

  lemma {:induction false} CoversSince(states: seq<Sys>, acts: seq<Act>, w: nat, ip: Ip, j: nat, k: nat)
    requires IsRun(states, acts) && j < k < |states| && SoleWriter(w, acts)
    requires Reloads(states[j], acts[j], w, ip)
    ensures w < |states[k].clients| && Covers(states[k].clients[w].view, states[k].records, ip)
  {
    if k > j + 1 {
      CoversSince(states, acts, w, ip, j, k - 1);
    }
    CoversStep(states[k - 1], acts[k - 1], w, ip);
  }

  lemma {:induction false} TracksRangesThroughout(states: seq<Sys>, acts: seq<Act>, w: nat, k: nat)
    requires IsRun(states, acts) && k < |states| && SoleWriter(w, acts)
    requires Fresh(states[0]) && w < |states[0].clients|
    ensures w < |states[k].clients| && TracksRanges(states[k].clients[w].view, states[k].records)
  {
    if k > 0 {
      TracksRangesThroughout(states, acts, w, k - 1);
      TracksRangesStep(states[k - 1], acts[k - 1], w);
    }
  }

  /** The range an address lookup settles on, in the map it had or in the reloaded one. */
  function Settled(c: AddrChoice): Option<Addr> {
    if c.first.Some? then c.first else c.second
  }

  /** The cache of the sole writer mirrors the store range by range, whatever pids are used: all it
      registers is in the store, an IP once reloaded is registered in full from then on, and lookups
      there settle on what a scan of the store would give. */
  lemma RangesMirrorStore(states: seq<Sys>, acts: seq<Act>, w: nat, k: nat)
    requires IsRun(states, acts) && SoleWriter(w, acts) && k < |states|
    requires Fresh(states[0]) && w < |states[0].clients|
    ensures w < |states[k].clients| && TracksRanges(states[k].clients[w].view, states[k].records)
    ensures forall ip, j :: 0 <= j < k && Reloads(states[j], acts[j], w, ip) ==>
              && Covers(states[k].clients[w].view, states[k].records, ip)
              && (k < |acts| && acts[k].who == w && acts[k].ev.ByAddr? && acts[k].ev.ip == ip
                  && (acts[k].ev.choice.first.Some? || acts[k].ev.choice.fetch.Some?) ==>
                    IndexAnswer(states[k].records, ip, acts[k].ev.port, Settled(acts[k].ev.choice)))
  {
    TracksRangesThroughout(states, acts, w, k);
    forall ip, j | 0 <= j < k && Reloads(states[j], acts[j], w, ip)
      ensures Covers(states[k].clients[w].view, states[k].records, ip)
      ensures k < |acts| && acts[k].who == w && acts[k].ev.ByAddr? && acts[k].ev.ip == ip
              && (acts[k].ev.choice.first.Some? || acts[k].ev.choice.fetch.Some?) ==>
                IndexAnswer(states[k].records, ip, acts[k].ev.port, Settled(acts[k].ev.choice))
    {
      CoversSince(states, acts, w, ip, j, k);
      if k < |acts| && acts[k].who == w && acts[k].ev.ByAddr? && acts[k].ev.ip == ip {
        MirrorSettles(states[k], acts[k]);
      }
    }
  }

  lemma MirrorSettles(s: Sys, act: Act)
    requires Possible(s, act) && act.ev.ByAddr?
    requires TracksRanges(s.clients[act.who].view, s.records)
    requires Covers(s.clients[act.who].view, s.records, act.ev.ip)
    ensures act.ev.choice.first.Some? || act.ev.choice.fetch.Some? ==>
              IndexAnswer(s.records, act.ev.ip, act.ev.port, Settled(act.ev.choice))
  {
    var v, choice := s.clients[act.who].view, act.ev.choice;
    if choice.first.Some? {
      SameAnswer(v, s.records, act.ev.ip, act.ev.port, choice.first);
    } else if choice.fetch.Some? {
      ReloadTracksRanges(v, s.records, choice.fetch.value);
      ReloadCovers(v, s.records, act.ev.ip, choice.fetch.value);
      SameAnswer(ReloadView(v, choice.fetch.value), s.records, act.ev.ip, act.ev.port, choice.second);
    }
  }

  lemma SameAnswer(v: View, records: Records, ip: Ip, port: int, r: Option<Addr>)
    requires TracksRanges(v, records) && Covers(v, records, ip)
    requires IndexAnswer(v.ranges, ip, port, r)
    ensures IndexAnswer(records, ip, port, r)
  {
  }

  /** The answer is the instance of an innermost range of the store, or that the store has none. */
  ghost predicate AnswersFromStore(s: Sys, act: Act)
    requires Possible(s, act) && act.ev.ByAddr?
  {
    match AnswerOf(s, act).value
    case Found(inst) =>
      && Innermost(s.records, inst.addr, act.ev.ip, act.ev.port) && s.records[inst.addr] == inst.cred
    case Refused(status) =>
      && IndexAnswer(s.records, act.ev.ip, act.ev.port, None)
      && status == if act.ev.choice.fetch.Some? then STATUS_NOT_FOUND else STATUS_INTERNAL_ERROR
    case NilDereference => false
  }

  /** The cache of the sole writer refines the store: all it caches is in the store, and once an IP
      has been reloaded, it mirrors the store there and answers as a scan of the store would. */
  lemma CacheRefinesStore(home: string -> Addr, states: seq<Sys>, acts: seq<Act>, w: nat)
    requires IsRun(states, acts) && SoleWriter(w, acts)
    requires Fresh(states[0]) && RecordsHomed(home, states[0].records) && w < |states[0].clients|
    requires forall i :: 0 <= i < |acts| ==> Disciplined(home, acts[i].ev)
    ensures forall k :: 0 <= k < |states| ==>
              w < |states[k].clients| && Tracks(states[k].clients[w].view, states[k].records)
    ensures forall ip, j, k :: 0 <= j < k < |states| && Reloads(states[j], acts[j], w, ip) ==>
              && Covers(states[k].clients[w].view, states[k].records, ip)
              && (k < |acts| && acts[k].who == w && acts[k].ev.ByAddr? && acts[k].ev.ip == ip ==>
                    AnswersFromStore(states[k], acts[k]))
  {
    forall k | 0 <= k < |states|
      ensures w < |states[k].clients| && Tracks(states[k].clients[w].view, states[k].records)
    {
      TracksThroughout(home, states, acts, w, k);
    }
    forall ip, j, k | 0 <= j < k < |states| && Reloads(states[j], acts[j], w, ip)
      ensures Covers(states[k].clients[w].view, states[k].records, ip)
      ensures k < |acts| && acts[k].who == w && acts[k].ev.ByAddr? && acts[k].ev.ip == ip ==>
                AnswersFromStore(states[k], acts[k])
    {
      CoversSince(states, acts, w, ip, j, k);
      if k < |acts| && acts[k].who == w && acts[k].ev.ByAddr? && acts[k].ev.ip == ip {
        TracksThroughout(home, states, acts, w, k);
        MirrorAnswers(home, states[k], acts[k]);
      }
    }
  }

  lemma MirrorAnswers(home: string -> Addr, s: Sys, act: Act)
    requires Possible(s, act) && act.ev.ByAddr? && RecordsHomed(home, s.records)
    requires Tracks(s.clients[act.who].view, s.records)
    requires Covers(s.clients[act.who].view, s.records, act.ev.ip)
    ensures AnswersFromStore(s, act)
  {
    var v, choice := s.clients[act.who].view, act.ev.choice;
    MirrorSettles(s, act);
    if choice.first.None? {
      assert IndexAnswer(s.records, act.ev.ip, act.ev.port, None) by {
        SameAnswer(v, s.records, act.ev.ip, act.ev.port, None);
      }
      if choice.fetch.Some? {
        ReloadTracks(home, v, s.records, choice.fetch.value);
      }
    }
  }

  // ---------------------------------------------------------------- what a cache has put, it finds

  /** The act deletes this range through this cache. */
  predicate Deletes(act: Act, who: nat, a: Addr) {
    act.who == who && act.ev.Del? && act.ev.a == a
  }

  lemma RangeStays(s: Sys, act: Act, who: nat, a: Addr)
    requires Possible(s, act) && who < |s.clients| && a in s.clients[who].view.ranges
    requires !Deletes(act, who, a)
    ensures a in Next(s, act).clients[who].view.ranges
  {
    var v := s.clients[who].view;
    match act.ev {
      case ByAddr(_, _, choice) =>
        if choice.first.None? && choice.fetch.Some? { ReloadGrows(v, choice.fetch.value); }
      case Resume(fetch) =>
        if fetch.Some? { ReloadGrows(v, fetch.value); }
      case _ =>
    }
  }

  lemma {:induction false} RangeStaysSince(states: seq<Sys>, acts: seq<Act>, j: nat, k: nat)
    requires IsRun(states, acts) && j < k < |states| && acts[j].ev.Put? && Insertable(acts[j].ev.inst.addr)
    requires forall i :: j < i < k ==> !Deletes(acts[i], acts[j].who, acts[j].ev.inst.addr)
    ensures acts[j].who < |states[k].clients|
    ensures acts[j].ev.inst.addr in states[k].clients[acts[j].who].view.ranges
  {
    if k > j + 1 {
      RangeStaysSince(states, acts, j, k - 1);
      RangeStays(states[k - 1], acts[k - 1], acts[j].who, acts[j].ev.inst.addr);
    }
  }

  /** After a put, whatever its outcome and whatever the other caches and the store do, lookups of
      its ports through that cache are answered without the store and never refused, until that
      cache deletes the range. */
  lemma ReadYourWrites(states: seq<Sys>, acts: seq<Act>, j: nat, k: nat)
    requires IsRun(states, acts) && j < k < |acts|
    requires acts[j].ev.Put? && acts[k].who == acts[j].who && acts[k].ev.ByAddr?
    requires acts[j].ev.inst.addr.Contains(acts[k].ev.ip, acts[k].ev.port)
    requires forall i :: j < i < k ==> !Deletes(acts[i], acts[j].who, acts[j].ev.inst.addr)
    ensures acts[k].ev.choice.first.Some?
    ensures !AnswerOf(states[k], acts[k]).value.Refused?
    ensures Next(states[k], acts[k]) == states[k]
  {
    RangeStaysSince(states, acts, j, k);
  }

  /** A lookup is refused as not found exactly when neither the cache nor a store that answers has
      a range with the port. */
  lemma NotFoundIff(s: Sys, act: Act)
    requires Possible(s, act) && act.ev.ByAddr?
    ensures AnswerOf(s, act).value == Refused(STATUS_NOT_FOUND) <==>
            && act.ev.choice.fetch.Some?
            && IndexAnswer(s.clients[act.who].view.ranges, act.ev.ip, act.ev.port, None)
            && IndexAnswer(s.records, act.ev.ip, act.ev.port, None)
  {
    var v, choice := s.clients[act.who].view, act.ev.choice;
    if choice.first.None? && choice.fetch.Some? {
      ReloadGrows(v, choice.fetch.value);
      ReloadCovers(v, s.records, act.ev.ip, choice.fetch.value);
      if choice.second.None? {
        forall a | a in s.records
          ensures !a.Contains(act.ev.ip, act.ev.port)
        {
          assert a.ip == act.ev.ip && Insertable(a) ==> a in ReloadView(v, choice.fetch.value).ranges;
        }
      } else {
        var a := choice.second.value;
        assert a in v.ranges || exists d :: d in choice.fetch.value && d.addr == a;
      }
    }
  }

  /** The instance of each pid that a reload lists becomes one of those listed. */
  lemma {:induction false} ReloadPids(v: View, docs: seq<CachedInstance>)
    ensures var v' := ReloadView(v, docs);
            forall d :: d in docs ==>
              && d.cred.pid in v'.pids && v'.pids[d.cred.pid] in docs
              && v'.pids[d.cred.pid].cred.pid == d.cred.pid
  {
    if docs != [] {
      var last, before := docs[|docs| - 1], docs[..|docs| - 1];
      ReloadPids(v, before);
      assert docs == before + [last];
    }
  }

  /** The owner of each new range is that of a listed instance at it. */
  lemma {:induction false} ReloadOwnersListed(v: View, docs: seq<CachedInstance>, a: Addr)
    requires a in ReloadView(v, docs).ranges && a !in v.ranges
    ensures exists d :: d in docs && d.addr == a && ReloadView(v, docs).ranges[a] == OwnerOf(d.cred)
  {
    var last, before := docs[|docs| - 1], docs[..|docs| - 1];
    if last.addr == a && Insertable(a) {
      assert last in docs;
    } else {
      ReloadOwnersListed(v, before, a);
      var d :| d in before && d.addr == a && ReloadView(v, before).ranges[a] == OwnerOf(d.cred);
      assert d in docs;
    }
  }

  /** The stored record found at an innermost stored range with the port: one with its owner's pid. */
  ghost predicate FoundInStore(records: Records, ip: Ip, port: int, b: Addr, inst: CachedInstance) {
    Innermost(records, b, ip, port) && RecordOf(records, records[b].pid, inst)
  }

  /** The answer at a cached range: its owner's entry in the pid table, or a crash if there is none. */
  ghost predicate FoundInCache(v: View, ip: Ip, port: int, b: Addr, r: Answer) {
    && Innermost(v.ranges, b, ip, port)
    && r == if v.ranges[b].p in v.pids then Found(v.pids[v.ranges[b].p]) else NilDereference
  }

  /** An address lookup answers from an innermost cached range if any holds the port; else from an
      innermost stored one if the store answers and has one, with 404 if it has none, and with 500 if
      it does not answer. */
  lemma AddrLookupDecided(v: View, records: Records, ip: Ip, port: int, reachable: bool, v': View, r: Answer)
    requires AddrAnswers(v, records, ip, port, reachable, v', r)
    ensures var cached := exists a :: a in v.ranges && a.Contains(ip, port);
            var stored := exists a :: a in records && a.Contains(ip, port);
            && (cached ==> v' == v && exists b :: FoundInCache(v, ip, port, b, r))
            && (r == Refused(STATUS_INTERNAL_ERROR) <==> !cached && !reachable)
            && (r == Refused(STATUS_NOT_FOUND) <==> !cached && reachable && !stored)
            && (!cached && reachable && stored ==> r.Found? && exists b :: FoundInStore(records, ip, port, b, r.inst))
            && (r.Refused? ==> r.status != STATUS_OK)
  {
    var c :| AddrChosen(v, records, ip, port, reachable, c) && (v', r) == AddrStep(v, records, ip, port, c);
    if c.first.Some? {
      assert FoundInCache(v, ip, port, c.first.value, r);
    } else if reachable {
      ReloadedAnswer(v, records, ip, port, c.fetch.value, c.second);
    }
  }

  lemma ReloadedAnswer(v: View, records: Records, ip: Ip, port: int, docs: seq<CachedInstance>, second: Option<Addr>)
    requires Lists(records, AtIp(ip), docs) && IndexAnswer(v.ranges, ip, port, None)
    requires IndexAnswer(ReloadView(v, docs).ranges, ip, port, second)
    ensures second.None? <==> !exists a :: a in records && a.Contains(ip, port)
    ensures second.Some? ==>
              var r := Deref(ReloadView(v, docs), second.value);
              r.Found? && FoundInStore(records, ip, port, second.value, r.inst)
  {
    var v' := ReloadView(v, docs);
    ReloadGrows(v, docs);
    ReloadCovers(v, records, ip, docs);
    ReloadPids(v, docs);
    if second.Some? {
      ReloadOwnersListed(v, docs, second.value);
    }
    forall a | a in records && a.Contains(ip, port)
      ensures a in v'.ranges
    {
      assert a.ip == ip && Insertable(a);
    }
  }

  // ---------------------------------------------------------------- the two lookups agree

  /** After a found address lookup, the pid lookup of what it returned gives the same instance
      from the cache alone. */
  lemma LookupsAgree(home: string -> Addr, s: Sys, act: Act, search: Option<seq<CachedInstance>>)
    requires Homed(home, s) && Possible(s, act) && act.ev.ByAddr? && AnswerOf(s, act).value.Found?
    ensures var inst := AnswerOf(s, act).value.inst;
            PidStart(Next(s, act).clients[act.who].view, inst.cred.pid, search) == Answered(Found(inst))
  {
    var v, choice := s.clients[act.who].view, act.ev.choice;
    if choice.first.None? && choice.fetch.Some? {
      ReloadHomed(home, v, choice.fetch.value);
    }
  }

  /** A pid lookup that reloads leaves every instance the store lists at the IP cached under its
      pid, and its range registered. */
  lemma ReloadByPidCachesAll(home: string -> Addr, s: Sys, act: Act)
    requires Homed(home, s) && Possible(s, act) && act.ev.Resume? && act.ev.fetch.Some?
    ensures var v, ip := Next(s, act).clients[act.who].view, s.clients[act.who].pending.value.addr.ip;
            forall a :: a in s.records && a.ip == ip ==>
              && s.records[a].pid in v.pids && v.pids[s.records[a].pid] == CachedInstance(a, s.records[a])
              && (Insertable(a) ==> a in v.ranges)
  {
    var v, docs := s.clients[act.who].view, act.ev.fetch.value;
    var ip := s.clients[act.who].pending.value.addr.ip;
    ReloadCovers(v, s.records, ip, docs);
    forall a | a in s.records && a.ip == ip
      ensures var v' := ReloadView(v, docs);
              s.records[a].pid in v'.pids && v'.pids[s.records[a].pid] == CachedInstance(a, s.records[a])
    {
      assert AtIp(ip).Matches(CachedInstance(a, s.records[a]));
      ReloadNames(home, v, s.records, docs, CachedInstance(a, s.records[a]));
    }
  }

  lemma {:induction false} ReloadNames(home: string -> Addr, v: View, records: Records,
                                       docs: seq<CachedInstance>, inst: CachedInstance)
    requires RecordsHomed(home, records) && inst in docs
    requires forall d :: d in docs ==> d.addr in records && records[d.addr] == d.cred
    ensures inst.cred.pid in ReloadView(v, docs).pids && ReloadView(v, docs).pids[inst.cred.pid] == inst
  {
    var last, before := docs[|docs| - 1], docs[..|docs| - 1];
    assert docs == before + [last];
    if last.cred.pid == inst.cred.pid {
      assert home(last.cred.pid) == last.addr && home(inst.cred.pid) == inst.addr;
    } else {
      ReloadNames(home, v, records, before, inst);
    }
  }
}
