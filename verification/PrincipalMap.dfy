/** The principal map of one cache: per IP an interval tree of port ranges, and a pid table. */
module PrincipalMap {
  import opened Principals

  // ---------------------------------------------------------------- identifiers

  const WORD := 0x1_0000_0000_0000_0000

  /** Conversion to an unsigned 64-bit word. */
  function U64(x: int): (r: int)
    ensures 0 <= r < WORD
  {
    x % WORD
  }

  /** The tree identifier of the half-open range [p1, p2) at an address, in 64-bit arithmetic. */
  function ComputeID(ip: Ip, p1: int, p2: int): (id: int)
    ensures 0 <= id < WORD
  {
    U64(U64(U64(ip) * 0x1_0000_0000) + U64(U64(p1) * 0x1_0000) + U64(p2))
  }

  /** All the wrap-around of the three partial words collapses into one reduction. */
  lemma ComputeIDIsOneReduction(ip: Ip, p1: int, p2: int)
    ensures ComputeID(ip, p1, p2) == (ip * 0x1_0000_0000 + p1 * 0x1_0000 + p2) % WORD
  {
    var q1 := U64(p1);
    assert p1 == (p1 / WORD) * WORD + q1;
    var w := q1 * 0x1_0000;
    assert w == (w / WORD) * WORD + U64(w);
    assert p2 == (p2 / WORD) * WORD + U64(p2);
    var exact := ip * 0x1_0000_0000 + p1 * 0x1_0000 + p2;
    var sum := ip * 0x1_0000_0000 + U64(w) + U64(p2);
    var k := (p1 / WORD) * 0x1_0000 + w / WORD + p2 / WORD;
    assert exact == sum + k * WORD;
    ReduceMultiple(sum, k);
  }

  lemma ReduceMultiple(x: int, k: int)
    ensures (x + k * WORD) % WORD == x % WORD
  {
    var q := (x + k * WORD) / WORD;
    assert x + k * WORD == q * WORD + (x + k * WORD) % WORD;
    assert x == (q - k) * WORD + (x + k * WORD) % WORD;
  }

  lemma EqualResidues(x: int, y: int)
    requires x % WORD == y % WORD
    requires -WORD < x - y < WORD
    ensures x == y
  {
    assert x == (x / WORD) * WORD + x % WORD;
    assert y == (y / WORD) * WORD + y % WORD;
    var d := x / WORD - y / WORD;
    assert x - y == d * WORD;
  }

  /** A range a port number allows: 0 <= lport <= rport <= 65535. */
  predicate PortRange(a: Addr) {
    0 <= a.lport <= a.rport <= 65535
  }

  function IdOf(a: Addr): int {
    ComputeID(a.ip, a.lport, a.rport + 1)
  }

  /** The identifier before reduction: the three fields side by side, but `rport + 1` may carry into
      the port field and from there into the address field. */
  function Fields(a: Addr): int {
    a.ip * 0x1_0000_0000 + a.lport * 0x1_0000 + a.rport + 1
  }

  lemma IdIsFields(a: Addr)
    ensures IdOf(a) == Fields(a) % WORD
  {
    ComputeIDIsOneReduction(a.ip, a.lport, a.rport + 1);
  }

  lemma FieldsInjective(a: Addr, b: Addr)
    requires PortRange(a) && PortRange(b)
    ensures 0 < Fields(a) <= WORD
    ensures Fields(a) == WORD <==> a == Addr(0xFFFF_FFFF, 65535, 65535)
    ensures Fields(a) == Fields(b) <==> a == b
  {
    if a.ip < b.ip || (a.ip == b.ip && a.lport < b.lport) {
      assert Fields(a) < Fields(b);
    }
    if b.ip < a.ip || (a.ip == b.ip && b.lport < a.lport) {
      assert Fields(b) < Fields(a);
    }
  }

  /** Distinct proper ranges have distinct identifiers. */
  lemma ComputeIDInjective(a: Addr, b: Addr)
    requires PortRange(a) && PortRange(b)
    ensures IdOf(a) == IdOf(b) <==> a == b
  {
    IdIsFields(a);
    IdIsFields(b);
    FieldsInjective(a, b);
    FieldsInjective(b, a);
    if IdOf(a) == IdOf(b) {
      EqualResidues(Fields(a), Fields(b));
    }
  }

  /** The identifier that forces a lookup is taken by one proper range only. */
  lemma ForceLookupTakenOnce(a: Addr)
    requires PortRange(a)
    ensures IdOf(a) == 0 <==> a == Addr(0xFFFF_FFFF, 65535, 65535)
  {
    IdIsFields(a);
    FieldsInjective(a, a);
    ZeroResidue(Fields(a));
  }

  lemma ZeroResidue(x: int)
    requires 0 < x <= WORD
    ensures x % WORD == 0 <==> x == WORD
  {
  }

  /** When identifiers agree, over all parsable ports: the fields before reduction agree, or are one
      word apart; at one IP, start and end in their overlapping fields add up to the same. */
  lemma SameIdIff(a: Addr, b: Addr)
    ensures IdOf(a) == IdOf(b) <==> Fields(a) - Fields(b) in {-WORD, 0, WORD}
    ensures a.ip == b.ip ==>
              (IdOf(a) == IdOf(b) <==> a.lport * 0x1_0000 + a.rport == b.lport * 0x1_0000 + b.rport)
  {
    IdIsFields(a);
    IdIsFields(b);
    NearResidues(Fields(a), Fields(b));
  }

  lemma NearResidues(x: int, y: int)
    requires -2 * WORD < x - y < 2 * WORD
    ensures x % WORD == y % WORD <==> x - y in {-WORD, 0, WORD}
  {
    ReduceMultiple(y, 1);
    ReduceMultiple(y, -1);
    if x % WORD == y % WORD {
      assert x == (x / WORD) * WORD + x % WORD;
      assert y == (y / WORD) * WORD + y % WORD;
      var d := x / WORD - y / WORD;
      assert x - y == d * WORD;
    }
  }

  /** So outside the 16-bit ports two ranges may collide: 0-65535 and 1-(-1) share an identifier. */
  lemma ComputeIDCollides(ip: Ip)
    ensures IdOf(Addr(ip, 0, 65535)) == IdOf(Addr(ip, 1, -1))
  {
    SameIdIff(Addr(ip, 0, 65535), Addr(ip, 1, -1));
  }

  // ---------------------------------------------------------------- the interval tree

  /** One range of the tree; `pmax` is exclusive. */
  datatype PrincipalIndex = PrincipalIndex(pmin: int, pmax: int, id: int, p: string, pp: string) {
    /** Overlap with the half-open range [start, end). */
    predicate Overlap(start: int, end: int) {
      pmax > start && pmin < end
    }
  }

  /** The tree orders its elements by start, then by identifier. */
  datatype TreeKey = TreeKey(pmin: int, id: int)

  type Tree = map<TreeKey, PrincipalIndex>

  function KeyOf(a: Addr): TreeKey {
    TreeKey(a.lport, IdOf(a))
  }

  /** At one IP the tree key determines the range, for every port the proxy can parse. */
  lemma KeyDeterminesRange(a: Addr, b: Addr)
    ensures a.ip == b.ip && KeyOf(a) == KeyOf(b) <==> a == b
  {
    if a.ip == b.ip && a.lport == b.lport && a.rport != b.rport {
      var x, y := Fields(a), Fields(b);
      assert x != y && -WORD < x - y < WORD;
      DistinctResidues(x, y);
      IdIsFields(a);
      IdIsFields(b);
    }
  }

  lemma DistinctResidues(x: int, y: int)
    requires x != y && -WORD < x - y < WORD
    ensures x % WORD != y % WORD
  {
    if x % WORD == y % WORD {
      EqualResidues(x, y);
    }
  }

  /** Inserting an inverted range is an error and changes nothing; an equal key is replaced. */
  function TreeInsert(t: Tree, e: PrincipalIndex): Tree {
    if e.pmin > e.pmax then t else t[TreeKey(e.pmin, e.id) := e]
  }

  function TreeDelete(t: Tree, key: TreeKey, pmax: int): Tree {
    if key.pmin > pmax then t else t - {key}
  }

  function Matches(t: Tree, start: int, end: int): set<TreeKey> {
    set k | k in t && t[k].Overlap(start, end)
  }

  /** All elements overlapping [start, end), each once, in an order the caller cannot rely on. */
  method TreeGet(t: Tree, start: int, end: int) returns (found: seq<PrincipalIndex>)
    ensures |found| == |Matches(t, start, end)|
    ensures forall e :: e in found ==> exists k :: k in Matches(t, start, end) && t[k] == e
    ensures forall k :: k in Matches(t, start, end) ==> t[k] in found
  {
    found := [];
    var todo := Matches(t, start, end);
    while todo != {}
      invariant todo <= Matches(t, start, end)
      invariant |found| + |todo| == |Matches(t, start, end)|
      invariant forall e :: e in found ==> exists k :: k in Matches(t, start, end) && t[k] == e
      invariant forall k :: k in Matches(t, start, end) ==> k in todo || t[k] in found
      decreases todo
    {
      var k :| k in todo;
      todo, found := todo - {k}, found + [t[k]];
    }
  }

  // ---------------------------------------------------------------- what a map says

  /** The principal and parent principal a range is registered for. */
  datatype Owner = Owner(p: string, pp: string)

  /** The flat reading of a principal map: registered ranges, and instances by pid. */
  datatype View = View(ranges: map<Addr, Owner>, pids: map<string, CachedInstance>)

  function OwnerOf(cred: InstanceCred): Owner {
    Owner(cred.pid, cred.ppid)
  }

  /** Neither inverted nor refused by the tree (an empty range is accepted). */
  predicate Insertable(a: Addr) {
    a.lport <= a.rport + 1
  }

  function PutView(v: View, inst: CachedInstance): View {
    View(if Insertable(inst.addr) then v.ranges[inst.addr := OwnerOf(inst.cred)] else v.ranges,
         v.pids[inst.cred.pid := inst])
  }

  function DelView(v: View, a: Addr, pid: string): View {
    View(v.ranges - {a}, v.pids - {pid})
  }

  predicate StrictlyInside(inner: Addr, outer: Addr) {
    inner.Within(outer) && inner != outer
  }

  /** `a` is a registered range holding the port with no other such range strictly inside it. */
  ghost predicate Innermost<T>(ranges: map<Addr, T>, a: Addr, ip: Ip, port: int) {
    && a in ranges && a.Contains(ip, port)
    && forall b :: b in ranges && b.Contains(ip, port) ==> !StrictlyInside(b, a)
  }

  /** The answers an index lookup may give, over all orders the tree may return matches in. */
  ghost predicate IndexAnswer<T>(ranges: map<Addr, T>, ip: Ip, port: int, r: Option<Addr>) {
    match r
    case None => forall a :: a in ranges ==> !a.Contains(ip, port)
    case Some(a) => Innermost(ranges, a, ip, port)
  }

  /** When the ranges holding a port are nested in one another, every order gives one answer. */
  lemma NestedAnswerUnique<T>(ranges: map<Addr, T>, ip: Ip, port: int, r: Option<Addr>, s: Option<Addr>)
    requires forall a, b :: a in ranges && b in ranges && a.Contains(ip, port) && b.Contains(ip, port)
                            ==> a.Within(b) || b.Within(a)
    requires IndexAnswer(ranges, ip, port, r) && IndexAnswer(ranges, ip, port, s)
    ensures r == s
  {
  }

  // ---------------------------------------------------------------- trees against ranges

  /** One tree lists exactly the ranges registered at its IP, with their owners. */
  ghost predicate TreeLists(ip: Ip, t: Tree, ranges: map<Addr, Owner>) {
    && (forall k {:trigger IsRange(ip, t, ranges, k)} :: k in t ==> IsRange(ip, t, ranges, k))
    && (forall a {:trigger IsFiled(t, ranges, a)} :: a in ranges && a.ip == ip ==> IsFiled(t, ranges, a))
  }

  /** The element under `k` stands for a registered range, and is filed under that range's key. */
  ghost predicate IsRange(ip: Ip, t: Tree, ranges: map<Addr, Owner>, k: TreeKey)
    requires k in t
  {
    var a := RangeOf(ip, t[k]);
    a in ranges && k == KeyOf(a) && Insertable(a)
  }

  /** The tree has the element of range `a`, with its owner. */
  ghost predicate IsFiled(t: Tree, ranges: map<Addr, Owner>, a: Addr)
    requires a in ranges
  {
    KeyOf(a) in t && t[KeyOf(a)] == IndexFor(a, ranges[a])
  }

  function IndexFor(a: Addr, o: Owner): PrincipalIndex {
    PrincipalIndex(a.lport, a.rport + 1, ComputeID(a.ip, a.lport, a.rport + 1), o.p, o.pp)
  }

  ghost function RangeOf(ip: Ip, e: PrincipalIndex): Addr {
    Addr(ip, Clamp(e.pmin), Clamp(e.pmax - 1))
  }

  function Clamp(x: int): Port {
    if x < -0x8000_0000 then -0x8000_0000 else if x >= 0x8000_0000 then 0x7FFF_FFFF else x
  }

  lemma {:induction false} InsertLists(t: Tree, ranges: map<Addr, Owner>, a: Addr, o: Owner)
    requires TreeLists(a.ip, t, ranges) && Insertable(a)
    ensures TreeLists(a.ip, TreeInsert(t, IndexFor(a, o)), ranges[a := o])
  {
    var t', ranges' := TreeInsert(t, IndexFor(a, o)), ranges[a := o];
    forall b | b in ranges' && b.ip == a.ip
      ensures IsFiled(t', ranges', b)
    {
      if b != a {
        assert IsFiled(t, ranges, b);
        if KeyOf(b) == KeyOf(a) { KeyDeterminesRange(a, b); }
      }
    }
    forall k | k in t'
      ensures IsRange(a.ip, t', ranges', k)
    {
      if k != KeyOf(a) { assert IsRange(a.ip, t, ranges, k); }
    }
  }

  lemma DeleteLists(t: Tree, ranges: map<Addr, Owner>, a: Addr)
    requires TreeLists(a.ip, t, ranges)
    ensures TreeLists(a.ip, TreeDelete(t, KeyOf(a), a.rport + 1), ranges - {a})
  {
    var t', ranges' := TreeDelete(t, KeyOf(a), a.rport + 1), ranges - {a};
    forall b | b in ranges' && b.ip == a.ip
      ensures IsFiled(t', ranges', b)
    {
      assert IsFiled(t, ranges, b);
      if KeyOf(b) == KeyOf(a) { KeyDeterminesRange(a, b); }
    }
    forall k | k in t'
      ensures IsRange(a.ip, t', ranges', k)
    {
      assert IsRange(a.ip, t, ranges, k);
    }
  }

  lemma OtherRangesList(ip: Ip, t: Tree, ranges: map<Addr, Owner>, ranges': map<Addr, Owner>)
    requires TreeLists(ip, t, ranges) && SameAt(ip, ranges, ranges')
    ensures TreeLists(ip, t, ranges')
  {
    forall b | b in ranges' && b.ip == ip
      ensures IsFiled(t, ranges', b)
    {
      assert IsFiled(t, ranges, b);
    }
    forall k | k in t
      ensures IsRange(ip, t, ranges', k)
    {
      assert IsRange(ip, t, ranges, k);
    }
  }

  /** The two range maps agree at one IP. */
  ghost predicate SameAt(ip: Ip, ranges: map<Addr, Owner>, ranges': map<Addr, Owner>) {
    forall b: Addr :: b.ip == ip ==> (b in ranges <==> b in ranges') && (b in ranges ==> ranges[b] == ranges'[b])
  }

  /** The trees together list exactly the registered ranges. */
  ghost predicate TreesList(ids: map<Ip, Tree>, ranges: map<Addr, Owner>) {
    && (forall ip :: ip in ids ==> TreeLists(ip, ids[ip], ranges))
    && (forall a :: a in ranges ==> a.ip in ids)
  }

  function TreeAt(ids: map<Ip, Tree>, ip: Ip): Tree {
    if ip in ids then ids[ip] else map[]
  }

  lemma TreeAtLists(ids: map<Ip, Tree>, ranges: map<Addr, Owner>, ip: Ip)
    requires TreesList(ids, ranges)
    ensures TreeLists(ip, TreeAt(ids, ip), ranges)
  {
  }

  lemma UpdateLists(ids: map<Ip, Tree>, ranges: map<Addr, Owner>, ip: Ip, t: Tree, ranges': map<Addr, Owner>)
    requires TreesList(ids, ranges) && TreeLists(ip, t, ranges')
    requires forall other :: other != ip ==> SameAt(other, ranges, ranges')
    ensures TreesList(ids[ip := t], ranges')
  {
    forall other | other in ids && other != ip
      ensures TreeLists(other, ids[other], ranges')
    {
      OtherRangesList(other, ids[other], ranges, ranges');
    }
    forall a | a in ranges'
      ensures a.ip in ids[ip := t]
    {
      assert a.ip != ip ==> SameAt(a.ip, ranges, ranges');
    }
  }

  /** Filing a range in its IP's tree, or trying to if it is inverted. */
  lemma CreateLists(ids: map<Ip, Tree>, ranges: map<Addr, Owner>, a: Addr, o: Owner)
    requires TreesList(ids, ranges)
    ensures TreesList(ids[a.ip := TreeInsert(TreeAt(ids, a.ip), IndexFor(a, o))],
                      if Insertable(a) then ranges[a := o] else ranges)
    ensures var t := TreeInsert(map[], IndexFor(a, o)); ids[a.ip := map[]][a.ip := t] == ids[a.ip := t]
  {
    var t := TreeInsert(TreeAt(ids, a.ip), IndexFor(a, o));
    TreeAtLists(ids, ranges, a.ip);
    if Insertable(a) {
      InsertLists(TreeAt(ids, a.ip), ranges, a, o);
      UpdateLists(ids, ranges, a.ip, t, ranges[a := o]);
    } else {
      UpdateLists(ids, ranges, a.ip, t, ranges);
    }
  }

  /** A match of the tree is a registered range, stored as that range's element. */
  lemma MatchIsRange(ip: Ip, t: Tree, ranges: map<Addr, Owner>, k: TreeKey)
    requires TreeLists(ip, t, ranges) && k in t
    ensures RangeOf(ip, t[k]) in ranges
    ensures t[k] == IndexFor(RangeOf(ip, t[k]), ranges[RangeOf(ip, t[k])])
  {
    assert IsRange(ip, t, ranges, k);
    assert IsFiled(t, ranges, RangeOf(ip, t[k]));
  }

  /** `e` covers less than `found`, and nothing outside it. */
  predicate Shrinks(found: PrincipalIndex, e: PrincipalIndex) {
    found.pmin <= e.pmin && found.pmax >= e.pmax && (found.pmin, found.pmax) != (e.pmin, e.pmax)
  }

  // ---------------------------------------------------------------- the map itself

  class Pmap {
    var identities: map<Ip, Tree>
    var pidMap: map<string, CachedInstance>

    /** The ranges registered so far; `Valid` ties them to the trees. */
    ghost var ranges: map<Addr, Owner>

    ghost predicate Valid()
      reads this
    {
      TreesList(identities, ranges)
    }

    ghost function Contents(): View
      reads this
    {
      View(ranges, pidMap)
    }

    constructor ()
      ensures Valid() && Contents() == View(map[], map[])
    {
      identities, pidMap, ranges := map[], map[], map[];
    }

    predicate Loaded(ip: Ip)
      reads this
    {
      ip in identities
    }

    method CreatePrincipalPP(a: Addr, p: string, pp: string, cidr: Option<Cidr>, t: string)
      requires Valid()
      modifies this
      ensures Valid() && Loaded(a.ip)
      ensures Contents() == PutView(old(Contents()), CachedInstance(a, InstanceCred(p, pp, cidr, t)))
      ensures ranges == if a.lport <= a.rport + 1 then old(ranges)[a := Owner(p, pp)] else old(ranges)
      ensures pidMap == old(pidMap)[p := CachedInstance(a, InstanceCred(p, pp, cidr, t))]
    {
      var index := PrincipalIndex(a.lport, a.rport + 1, ComputeID(a.ip, a.lport, a.rport + 1), p, pp);
      CreateLists(identities, ranges, a, Owner(p, pp));
      if a.ip !in identities {
        identities := identities[a.ip := map[]];
      }
      identities := identities[a.ip := TreeInsert(identities[a.ip], index)];
      pidMap := pidMap[p := CachedInstance(a, InstanceCred(p, pp, cidr, t))];
      if Insertable(a) {
        ranges := ranges[a := Owner(p, pp)];
      }
    }

    method DeletePrincipal(a: Addr) returns (ok: bool)
      requires Valid()
      modifies this
      ensures Valid()
      ensures ranges == old(ranges) - {a} && pidMap == old(pidMap)
      ensures ok <==> old(Loaded(a.ip)) && Insertable(a)
    {
      if a.ip in identities {
        DeleteLists(identities[a.ip], ranges, a);
        ghost var t := TreeDelete(identities[a.ip], KeyOf(a), a.rport + 1);
        UpdateLists(identities, ranges, a.ip, t, ranges - {a});
        identities := identities[a.ip := TreeDelete(identities[a.ip], KeyOf(a), a.rport + 1)];
        ok := a.lport <= a.rport + 1;
      } else {
        assert ranges - {a} == ranges;
        ok := false;
      }
      ranges := ranges - {a};
    }

    /** The innermost registered range holding a port. */
    method GetIndex(ip: Ip, port: int) returns (r: Option<PrincipalIndex>)
      requires Valid()
      ensures IndexAnswer(ranges, ip, port, if r.Some? then Some(RangeOf(ip, r.value)) else None)
      ensures r.Some? ==> r.value == IndexFor(RangeOf(ip, r.value), ranges[RangeOf(ip, r.value)])
    {
      if ip !in identities {
        return None;
      }
      var tree := identities[ip];
      var indexes := TreeGet(tree, port, port + 1);
      if |indexes| == 0 {
        forall a | a in ranges && a.ip == ip
          ensures !a.Contains(ip, port)
        {
          assert IsFiled(tree, ranges, a);
          assert KeyOf(a) !in Matches(tree, port, port + 1);
        }
        return None;
      }
      var found := indexes[0];
      for i := 1 to |indexes|
        invariant found in indexes
        invariant forall j :: 0 <= j < i ==> !Shrinks(found, indexes[j])
      {
        if found.pmin <= indexes[i].pmin && found.pmax >= indexes[i].pmax {
          found := indexes[i];
        }
      }
      ghost var k :| k in Matches(tree, port, port + 1) && tree[k] == found;
      MatchIsRange(ip, tree, ranges, k);
      var a := RangeOf(ip, found);
      forall b | b in ranges && b.Contains(ip, port)
        ensures !StrictlyInside(b, a)
      {
        assert IsFiled(tree, ranges, b);
        assert KeyOf(b) in Matches(tree, port, port + 1);
        var j :| 0 <= j < |indexes| && indexes[j] == tree[KeyOf(b)];
        assert !Shrinks(found, indexes[j]);
      }
      if found.pmin <= port && found.pmax > port {
        return Some(found);
      }
      // the re-check cannot fail: every match holds the port
      assert false;
    }

    function GetCachedInstance(uuid: string): Option<CachedInstance>
      reads this
    {
      if uuid in pidMap then Some(pidMap[uuid]) else None
    }

    method PutCachedInstance(inst: CachedInstance)
      requires Valid()
      modifies this
      ensures Valid() && Loaded(inst.addr.ip)
      ensures Contents() == PutView(old(Contents()), inst)
    {
      CreatePrincipalPP(inst.addr, inst.cred.pid, inst.cred.ppid, inst.cred.cidr, inst.cred.kind);
      pidMap := pidMap[inst.cred.pid := inst];
    }

    method DelCachedInstanceAlt(a: Addr, pid: string)
      requires Valid()
      modifies this
      ensures Valid() && Contents() == DelView(old(Contents()), a, pid)
    {
      var _ := DeletePrincipal(a);
      pidMap := pidMap - {pid};
    }
  }
}
