/** The shared store of instances: key and record texts, and the connection the caches use. */
module NetMap {
  import opened Principals
  import opened Text

  // ---------------------------------------------------------------- addresses and networks as text

  function Octets(ip: Ip): (o: seq<nat>)
    ensures |o| == 4 && forall i :: 0 <= i < 4 ==> o[i] < 256
  {
    [ip / 256 / 256 / 256, ip / 256 / 256 % 256, ip / 256 % 256, ip % 256]
  }

  function FromOctets(o: seq<nat>): Ip
    requires |o| == 4 && forall i :: 0 <= i < 4 ==> o[i] < 256
  {
    o[0] * 0x100_0000 + o[1] * 0x1_0000 + o[2] * 256 + o[3]
  }

  lemma FromOctetsOf(ip: Ip)
    ensures FromOctets(Octets(ip)) == ip
  {
  }

  function PrintAll(o: seq<nat>): (r: seq<string>)
    ensures |r| == |o| && forall i :: 0 <= i < |o| ==> r[i] == PrintNat(o[i])
  {
    seq(|o|, i requires 0 <= i < |o| => PrintNat(o[i]))
  }

  function PrintIp(ip: Ip): string {
    JoinWith(PrintAll(Octets(ip)), '.')
  }

  /** A number of one or more digits and nothing else. */
  function ParseNat(s: string): Option<nat> {
    if s == "" || DigitRun(s) < |s| then None
    else
      assert s[..|s|] == s;
      Some(DigitsValue(s, 0))
  }

  function ParseOctet(s: string): (r: Option<nat>)
    ensures r.Some? ==> r.value < 256
  {
    var v := ParseNat(s);
    if v.Some? && v.value < 256 then v else None
  }

  function ParseIp(s: string): Option<Ip> {
    var parts := SplitOn(s, '.');
    if |parts| != 4 then None
    else
      var a, b, c, d := ParseOctet(parts[0]), ParseOctet(parts[1]), ParseOctet(parts[2]), ParseOctet(parts[3]);
      if a.Some? && b.Some? && c.Some? && d.Some?
      then Some(FromOctets([a.value, b.value, c.value, d.value])) else None
  }

  function PrintCidr(n: Cidr): string {
    PrintIp(n.base) + "/" + PrintNat(n.bits)
  }

  /** The network part of an `address/bits` text: the address is masked. */
  function ParseCidr(s: string): Option<Cidr> {
    var parts := SplitOn(s, '/');
    if |parts| != 2 then None
    else
      var ip, bits := ParseIp(parts[0]), ParseNat(parts[1]);
      if ip.Some? && bits.Some? && bits.value <= 32 then
        ClearLowTwice(ip.value, 32 - bits.value);
        Some(Network(Mask(ip.value, bits.value), bits.value))
      else None
  }

  lemma ParsePrintedNat(n: nat)
    ensures ParseNat(PrintNat(n)) == Some(n)
  {
    PrintNatValue(n);
    DigitRunOf(PrintNat(n), "");
    assert PrintNat(n) + "" == PrintNat(n);
  }

  lemma ParsePrintedIp(ip: Ip)
    ensures ParseIp(PrintIp(ip)) == Some(ip)
  {
    var o := Octets(ip);
    forall n: nat
      ensures '.' !in PrintNat(n) && ParseNat(PrintNat(n)) == Some(n)
    {
      ParsePrintedNat(n);
    }
    SplitJoin(PrintAll(o), '.');
    assert [o[0], o[1], o[2], o[3]] == o;
    FromOctetsOf(ip);
  }

  lemma PrintedIpHas(ip: Ip, c: char)
    requires !IsDigit(c) && c != '.'
    ensures c !in PrintIp(ip)
  {
    JoinHas(PrintAll(Octets(ip)), '.', c);
  }

  lemma {:induction false} JoinHas(parts: seq<string>, sep: char, c: char)
    requires c != sep
    requires forall p :: p in parts ==> c !in p
    ensures c !in JoinWith(parts, sep)
  {
    if |parts| > 1 {
      JoinHas(parts[1..], sep, c);
    }
  }

  lemma ParsePrintedCidr(n: Cidr)
    ensures ParseCidr(PrintCidr(n)) == Some(n) && PrintCidr(n) != ""
  {
    PrintedIpHas(n.base, '/');
    ParsePrintedIp(n.base);
    ParsePrintedNat(n.bits);
    var parts := [PrintIp(n.base), PrintNat(n.bits)];
    assert JoinWith(parts[1..], '/') == parts[1];
    assert JoinWith(parts, '/') == parts[0] + ['/'] + parts[1];
    SplitJoin(parts, '/');
  }

  // ---------------------------------------------------------------- keys

  function NetMapKey(lport: int, rport: int): string {
    PrintInt(lport) + ":" + PrintInt(rport)
  }

  /** Two integers around a colon, as the formatted scan of a key reads them. */
  function ScanKey(key: string): Option<(int, int)> {
    match ScanInt(key)
    case None => None
    case Some((l, rest)) =>
      if rest == "" || rest[0] != ':' then None
      else
        match ScanInt(rest[1..])
        case None => None
        case Some((r, _)) => Some((l, r))
  }

  lemma KeyRoundTrip(lport: int, rport: int)
    ensures ScanKey(NetMapKey(lport, rport)) == Some((lport, rport))
  {
    ScanTwo(PrintInt(lport), PrintInt(rport), lport, rport);
  }

  lemma ScanTwo(left: string, right: string, lport: int, rport: int)
    requires left == PrintInt(lport) && right == PrintInt(rport)
    ensures ScanKey(left + ":" + right) == Some((lport, rport))
  {
    var rest := ":" + right;
    assert left + ":" + right == left + rest;
    assert ScanInt(left + rest) == Some((lport, rest)) by { ScanPrinted(lport, rest); }
    assert rest[1..] == right == right + "";
    assert ScanInt(right) == Some((rport, "")) by { ScanPrinted(rport, ""); }
  }

  // ---------------------------------------------------------------- records

  /** The tags of a stored record. They are crossed: an instance's own pid goes under `Id_s`, its
      parent's under `Pid_s`. */
  datatype Tag = Id_s | Pid_s | Cidr_s | Type_s

  /** A JSON object of strings, by tag. */
  type Json = map<Tag, string>

  function Bytes(cred: InstanceCred): Json {
    map[Id_s := cred.pid, Pid_s := cred.ppid,
        Cidr_s := if cred.cidr.Some? then PrintCidr(cred.cidr.value) else "",
        Type_s := cred.kind]
  }

  function TagOr(obj: Json, tag: Tag): string {
    if tag in obj then obj[tag] else ""
  }

  function InstanceCredFromBytes(obj: Json): Option<InstanceCred> {
    var text := TagOr(obj, Cidr_s);
    var cidr := CidrOfText(text);
    if text != "" && cidr.None? then None
    else Some(InstanceCred(TagOr(obj, Id_s), TagOr(obj, Pid_s), cidr, TagOr(obj, Type_s)))
  }

  /** A hit of the search index: the object's bucket and key, and the values of its tags. */
  datatype SearchDoc = SearchDoc(bucket: string, key: string, fields: map<Tag, seq<string>>)

  predicate Missing(d: SearchDoc, tag: Tag) {
    tag !in d.fields || |d.fields[tag]| == 0
  }

  function DocKind(d: SearchDoc): string {
    if Missing(d, Type_s) then NORMAL_INSTANCE_TYPE else d.fields[Type_s][0]
  }

  function CidrOfText(text: string): Option<Cidr> {
    if text == "" then None else ParseCidr(text)
  }

  function DocCidr(d: SearchDoc): Option<Cidr> {
    if Missing(d, Cidr_s) then None else CidrOfText(d.fields[Cidr_s][0])
  }

  function AddrOfName(n: ObjectName): Option<Addr> {
    match ScanKey(n.key)
    case None => None
    case Some((l, r)) =>
      var ip := ParseIp(n.bucket);
      if ip.Some? && -0x8000_0000 <= l < 0x8000_0000 && -0x8000_0000 <= r < 0x8000_0000
      then Some(Addr(ip.value, l, r)) else None
  }

  function GenCachedInstance(d: SearchDoc): Option<CachedInstance> {
    var a := AddrOfName(ObjectName(d.bucket, d.key));
    if a.None? || Missing(d, Pid_s) || Missing(d, Id_s) then None
    else
      var cred := InstanceCred(d.fields[Id_s][0], d.fields[Pid_s][0], DocCidr(d), DocKind(d));
      Some(CachedInstance(a.value, cred))
  }

  /** How the search index presents a stored object. */
  function IndexedDoc(name: ObjectName, obj: Json): SearchDoc {
    SearchDoc(name.bucket, name.key, map t | t in obj :: [obj[t]])
  }

  datatype ObjectName = ObjectName(bucket: string, key: string)

  function NameOf(a: Addr): ObjectName {
    ObjectName(PrintIp(a.ip), NetMapKey(a.lport, a.rport))
  }

  lemma CredRoundTrip(cred: InstanceCred)
    ensures InstanceCredFromBytes(Bytes(cred)) == Some(cred)
  {
    if cred.cidr.Some? {
      ParsePrintedCidr(cred.cidr.value);
    }
  }

  /** What is stored for an address comes back from the index as that very instance. */
  lemma {:induction false} RecordRoundTrip(a: Addr, cred: InstanceCred)
    ensures GenCachedInstance(IndexedDoc(NameOf(a), Bytes(cred))) == Some(CachedInstance(a, cred))
  {
    var name, obj := NameOf(a), Bytes(cred);
    AddrRoundTrip(a);
    CidrRoundTrip(cred);
    ReadBack(name, obj, a, cred);
  }

  /** From an index that lacks some tags of a record: without either pid nothing comes back; without
      the type the instance is normal, and without the network it has none. */
  lemma {:induction false} PartialRecord(a: Addr, cred: InstanceCred, lost: set<Tag>)
    ensures GenCachedInstance(IndexedDoc(NameOf(a), Bytes(cred) - lost)) ==
            if Id_s in lost || Pid_s in lost then None
            else Some(CachedInstance(a, cred.(cidr := if Cidr_s in lost then None else cred.cidr,
                                              kind := if Type_s in lost then NORMAL_INSTANCE_TYPE else cred.kind)))
  {
    var name, obj := NameOf(a), Bytes(cred);
    AddrRoundTrip(a);
    CidrRoundTrip(cred);
    ReadPartial(name, obj, a, cred, lost);
  }

  lemma ReadPartial(name: ObjectName, obj: Json, a: Addr, cred: InstanceCred, lost: set<Tag>)
    requires AddrOfName(name) == Some(a)
    requires Id_s in obj && Pid_s in obj && Cidr_s in obj && Type_s in obj
    requires obj[Id_s] == cred.pid && obj[Pid_s] == cred.ppid && obj[Type_s] == cred.kind
    requires CidrOfText(obj[Cidr_s]) == cred.cidr
    ensures GenCachedInstance(IndexedDoc(name, obj - lost)) ==
            if Id_s in lost || Pid_s in lost then None
            else Some(CachedInstance(a, cred.(cidr := if Cidr_s in lost then None else cred.cidr,
                                              kind := if Type_s in lost then NORMAL_INSTANCE_TYPE else cred.kind)))
  {
    var d := IndexedDoc(name, obj - lost);
    assert Missing(d, Id_s) == (Id_s in lost) && Missing(d, Pid_s) == (Pid_s in lost);
  }

  lemma AddrRoundTrip(a: Addr)
    ensures AddrOfName(NameOf(a)) == Some(a)
  {
    KeyRoundTrip(a.lport, a.rport);
    ParsePrintedIp(a.ip);
  }

  lemma CidrRoundTrip(cred: InstanceCred)
    ensures CidrOfText(Bytes(cred)[Cidr_s]) == cred.cidr
  {
    if cred.cidr.Some? {
      ParsePrintedCidr(cred.cidr.value);
    }
  }

  lemma ReadBack(name: ObjectName, obj: Json, a: Addr, cred: InstanceCred)
    requires AddrOfName(name) == Some(a)
    requires Id_s in obj && Pid_s in obj && Cidr_s in obj && Type_s in obj
    requires obj[Id_s] == cred.pid && obj[Pid_s] == cred.ppid && obj[Type_s] == cred.kind
    requires CidrOfText(obj[Cidr_s]) == cred.cidr
    ensures GenCachedInstance(IndexedDoc(name, obj)) == Some(CachedInstance(a, cred))
  {
  }

  lemma NamesDistinct(a: Addr, b: Addr)
    requires NameOf(a) == NameOf(b)
    ensures a == b
  {
    KeyRoundTrip(a.lport, a.rport);
    KeyRoundTrip(b.lport, b.rport);
    ParsePrintedIp(a.ip);
    ParsePrintedIp(b.ip);
  }

  // ---------------------------------------------------------------- the connection

  /** What the store holds: the credentials recorded for each address range. */
  type Records = map<Addr, InstanceCred>

  /** A write reports success, or reports a failure after which it may still have taken effect. */
  datatype WriteOutcome = Done | Failed(applied: bool) {
    predicate Applied() {
      Done? || applied
    }
  }

  datatype Query = AtIp(ip: Ip) | WithPid(pid: string) {
    predicate Matches(inst: CachedInstance) {
      match this
      case AtIp(ip) => inst.addr.ip == ip
      case WithPid(pid) => inst.cred.pid == pid
    }

    /** The same selection, as the search index makes it. */
    predicate Hits(d: SearchDoc) {
      match this
      case AtIp(ip) => d.bucket == PrintIp(ip)
      case WithPid(pid) => Id_s in d.fields && d.fields[Id_s] == [pid]
    }
  }

  /** `docs` are exactly the matching records, each once. */
  ghost predicate Lists(records: Records, q: Query, docs: seq<CachedInstance>) {
    && (forall i, j :: 0 <= i < j < |docs| ==> docs[i] != docs[j])
    && (forall d :: d in docs ==> q.Matches(d) && d.addr in records && records[d.addr] == d.cred)
    && (forall a :: a in records && q.Matches(CachedInstance(a, records[a]))
                    ==> CachedInstance(a, records[a]) in docs)
  }

  class RiakConn {
    var objects: map<ObjectName, Json>

    /** The records written so far; `Valid` ties them to the stored objects. */
    ghost var records: Records

    ghost predicate Valid()
      reads this
    {
      && (forall a {:trigger IsStored(a)} :: a in records ==> IsStored(a))
      && (forall n {:trigger IsRecord(n)} :: n in objects ==> IsRecord(n))
    }

    ghost predicate IsStored(a: Addr)
      requires a in records
      reads this
    {
      NameOf(a) in objects && objects[NameOf(a)] == Bytes(records[a])
    }

    ghost predicate IsRecord(n: ObjectName)
      reads this
    {
      exists a :: a in records && NameOf(a) == n
    }

    /** A connection to a store that already holds some records. */
    constructor (stored: Records)
      ensures Valid() && records == stored
    {
      objects, records := map[], map[];
      new;
      var todo := stored.Keys;
      while todo != {}
        invariant Valid() && todo <= stored.Keys
        invariant records == stored - todo
        decreases todo
      {
        var a :| a in todo;
        var _ := PutNetIDMap(a, stored[a], Done);
        todo := todo - {a};
      }
      assert stored - {} == stored;
    }

    method PutNetIDMap(a: Addr, cred: InstanceCred, w: WriteOutcome) returns (ok: bool)
      requires Valid()
      modifies this
      ensures Valid()
      ensures ok == w.Done? && records == if w.Applied() then old(records)[a := cred] else old(records)
    {
      if w.Applied() {
        objects := objects[NameOf(a) := Bytes(cred)];
        records := records[a := cred];
        forall b | b in records
          ensures IsStored(b)
        {
          if b != a {
            assert old(IsStored(b));
            if NameOf(b) == NameOf(a) { NamesDistinct(a, b); }
          }
        }
        forall n | n in objects
          ensures IsRecord(n)
        {
          if n == NameOf(a) {
            assert a in records;
          } else {
            assert old(IsRecord(n));
            var b :| b in old(records) && NameOf(b) == n;
            assert b in records;
          }
        }
      }
      ok := w.Done?;
    }

    /** The credentials recorded for one address; the outer option is for a store that fails. */
    method GetNetIDMap(a: Addr, reachable: bool) returns (r: Option<Option<InstanceCred>>)
      requires Valid()
      ensures r == if !reachable then None else if a in records then Some(Some(records[a])) else Some(None)
    {
      if !reachable {
        return None;
      }
      var n := NameOf(a);
      if n !in objects {
        assert a in records ==> IsStored(a);
        return Some(None);
      }
      assert IsRecord(n);
      ghost var b :| b in records && NameOf(b) == n;
      NamesDistinct(a, b);
      assert IsStored(a);
      CredRoundTrip(records[a]);
      r := Some(InstanceCredFromBytes(objects[n]));
    }

    method DelNetIDMap(a: Addr, w: WriteOutcome) returns (ok: bool)
      requires Valid()
      modifies this
      ensures Valid()
      ensures ok == w.Done? && records == if w.Applied() then old(records) - {a} else old(records)
    {
      if w.Applied() {
        objects := objects - {NameOf(a)};
        records := records - {a};
        forall b | b in records
          ensures IsStored(b)
        {
          assert old(IsStored(b));
          if NameOf(b) == NameOf(a) { NamesDistinct(a, b); }
        }
        forall n | n in objects
          ensures IsRecord(n)
        {
          assert old(IsRecord(n));
          var b :| b in old(records) && NameOf(b) == n;
          assert b in records;
        }
      }
      ok := w.Done?;
    }

    /** The instance of one stored object, if the search selects it. */
    method ReadHit(q: Query, n: ObjectName) returns (r: Option<CachedInstance>)
      requires Valid() && n in objects
      ensures forall a :: a in records && NameOf(a) == n ==>
                var inst := CachedInstance(a, records[a]);
                r == if q.Matches(inst) then Some(inst) else None
    {
      assert IsRecord(n);
      ghost var a :| a in records && NameOf(a) == n;
      assert IsStored(a);
      var doc := IndexedDoc(n, objects[n]);
      HitIsMatch(q, a, records[a]);
      RecordRoundTrip(a, records[a]);
      forall b | b in records && NameOf(b) == n
        ensures b == a
      {
        NamesDistinct(a, b);
      }
      r := None;
      if q.Hits(doc) {
        r := GenCachedInstance(doc);
      }
    }

    /** Runs a search; the hits come back in an order the caller cannot rely on. */
    method Search(q: Query, reachable: bool) returns (r: Option<seq<CachedInstance>>)
      requires Valid()
      ensures r.Some? == reachable
      ensures r.Some? ==> Lists(records, q, r.value)
    {
      if !reachable {
        return None;
      }
      var result: seq<CachedInstance> := [];
      var todo := objects.Keys;
      forall a | a in records
        ensures NameOf(a) in todo
      {
        assert IsStored(a);
      }
      while todo != {}
        invariant todo <= objects.Keys
        invariant forall i, j :: 0 <= i < j < |result| ==> result[i] != result[j]
        invariant forall d :: d in result ==>
                                && q.Matches(d) && d.addr in records && records[d.addr] == d.cred
                                && NameOf(d.addr) !in todo
        invariant forall a :: a in records && q.Matches(CachedInstance(a, records[a])) && NameOf(a) !in todo
                              ==> CachedInstance(a, records[a]) in result
        decreases todo
      {
        var n :| n in todo;
        todo := todo - {n};
        assert IsRecord(n);
        var inst := ReadHit(q, n);
        if inst.Some? {
          result := result + [inst.value];
        }
      }
      r := Some(result);
    }

    method GetAllNetID(ip: Ip, reachable: bool) returns (r: Option<seq<CachedInstance>>)
      requires Valid()
      ensures r.Some? == reachable
      ensures r.Some? ==> Lists(records, AtIp(ip), r.value)
    {
      r := Search(AtIp(ip), reachable);
    }

    method SearchIDNet(uuid: string, reachable: bool) returns (r: Option<seq<CachedInstance>>)
      requires Valid()
      ensures r.Some? == reachable
      ensures r.Some? ==> Lists(records, WithPid(uuid), r.value)
    {
      r := Search(WithPid(uuid), reachable);
    }
  }

  lemma HitIsMatch(q: Query, a: Addr, cred: InstanceCred)
    ensures q.Hits(IndexedDoc(NameOf(a), Bytes(cred))) == q.Matches(CachedInstance(a, cred))
  {
    if q.AtIp? {
      ParsePrintedIp(a.ip);
      ParsePrintedIp(q.ip);
    }
  }
}
