/**
 * The CARBON and FNV1a hash rings: construction by sorting and overwriting
 * (`ch_addnode`), and lookup by binary search and a cyclic walk
 * (`ch_get_nodes`).  The hash function is supplied from outside.
 */
module Ring {
  import opened Common
  import opened Distinct

  const HASH_REPLICAS := 100
  const POSITIONS := 65536

  datatype Hash = Carbon | Fnv1a

  /** `id` stands for the server's address in memory. */
  datatype Server = Server(id: nat, ip: string, port: nat, instance: Option<string>)

  datatype Entry = Entry(pos: nat, server: Server)

  // ---------------------------------------------------------------------
  // Comparators
  // ---------------------------------------------------------------------

  function StrCmp(a: string, b: string): int
    decreases |a|
  {
    if a == "" then (if b == "" then 0 else -1)
    else if b == "" then 1
    else if a[0] != b[0] then a[0] as int - b[0] as int
    else StrCmp(a[1..], b[1..])
  }

  /** The tie-break between two servers at the same position. */
  function TieCmp(h: Hash, l: Server, r: Server): int {
    var d := StrCmp(l.ip, r.ip);
    if d != 0 then d
    else match h
      case Carbon =>
        if l.instance.None? && r.instance.None? then 0
        else if l.instance.None? then 1
        else if r.instance.None? then -1
        else StrCmp(l.instance.value, r.instance.value)
      case Fnv1a => l.port - r.port
  }

  function EntryCmp(h: Hash, l: Entry, r: Entry): int {
    if l.pos != r.pos then l.pos - r.pos else TieCmp(h, l.server, r.server)
  }

  lemma {:induction false} StrCmpOrder(a: string, b: string)
    ensures StrCmp(a, b) == 0 <==> a == b
    ensures StrCmp(a, b) < 0 <==> StrCmp(b, a) > 0
    decreases |a|
  {
    if a != "" && b != "" && a[0] == b[0] {
      StrCmpOrder(a[1..], b[1..]);
      assert a == [a[0]] + a[1..] && b == [b[0]] + b[1..];
    }
  }

  lemma {:induction false} StrCmpTransitive(a: string, b: string, c: string)
    requires StrCmp(a, b) <= 0 && StrCmp(b, c) <= 0
    ensures StrCmp(a, c) <= 0
    ensures StrCmp(a, b) < 0 || StrCmp(b, c) < 0 ==> StrCmp(a, c) < 0
    decreases |a|
  {
    if a != "" && b != "" && c != "" && a[0] == b[0] == c[0] {
      StrCmpTransitive(a[1..], b[1..], c[1..]);
    }
  }

  /** Lexicographic order: a proper prefix comes first, else the first difference decides. */
  ghost predicate Precedes(a: string, b: string) {
    exists k :: 0 <= k <= |a| && k <= |b| && a[..k] == b[..k] && k < |b| && (k == |a| || a[k] < b[k])
  }

  lemma {:induction false} StrCmpIsLexicographic(a: string, b: string)
    ensures StrCmp(a, b) < 0 <==> Precedes(a, b)
    decreases |a|
  {
    if a == "" {
      if b != "" {
        assert a[..0] == b[..0];
      }
    } else if b != "" && a[0] == b[0] {
      StrCmpIsLexicographic(a[1..], b[1..]);
      if Precedes(a[1..], b[1..]) {
        var k :| 0 <= k <= |a[1..]| && k < |b[1..]| && a[1..][..k] == b[1..][..k] &&
          (k == |a[1..]| || a[1..][k] < b[1..][k]);
        assert a[..k + 1] == [a[0]] + a[1..][..k] && b[..k + 1] == [b[0]] + b[1..][..k];
      }
      if Precedes(a, b) {
        var k :| 0 <= k <= |a| && k < |b| && a[..k] == b[..k] && (k == |a| || a[k] < b[k]);
        assert k > 0;
        assert a[1..][..k - 1] == a[..k][1..] && b[1..][..k - 1] == b[..k][1..];
      }
    } else if b != "" {
      assert a[..0] == b[..0];
      if Precedes(a, b) {
        var k :| 0 <= k <= |a| && k < |b| && a[..k] == b[..k] && (k == |a| || a[k] < b[k]);
        assert k > 0 ==> a[..k][0] == b[..k][0];
      }
    }
  }

  /**
   * Who wins a position: the address that comes first and, among equal ones,
   * the instance that does, servers without one last, or the lower port.
   */
  lemma {:induction false} TieCmpIsLexicographic(h: Hash, l: Server, r: Server)
    ensures TieCmp(h, l, r) < 0 <==>
            || Precedes(l.ip, r.ip)
            || (l.ip == r.ip && match h
                  case Carbon => l.instance.Some? && (r.instance.None? || Precedes(l.instance.value, r.instance.value))
                  case Fnv1a => l.port < r.port)
  {
    hide StrCmp, Precedes;
    StrCmpIsLexicographic(l.ip, r.ip);
    StrCmpOrder(l.ip, r.ip);
    if l.instance.Some? && r.instance.Some? {
      StrCmpIsLexicographic(l.instance.value, r.instance.value);
    }
  }

  /** The fields the tie-break looks at. */
  predicate SameKey(h: Hash, l: Server, r: Server) {
    l.ip == r.ip && match h
      case Carbon => l.instance == r.instance
      case Fnv1a => l.port == r.port
  }

  lemma {:induction false} TieCmpOrder(h: Hash, l: Server, r: Server)
    ensures TieCmp(h, l, r) == 0 <==> SameKey(h, l, r)
    ensures TieCmp(h, l, r) < 0 <==> TieCmp(h, r, l) > 0
  {
    StrCmpOrder(l.ip, r.ip);
    StrCmpOrder(r.ip, l.ip);
    if l.instance.Some? && r.instance.Some? {
      StrCmpOrder(l.instance.value, r.instance.value);
      StrCmpOrder(r.instance.value, l.instance.value);
    }
  }

  lemma {:induction false} TieCmpTransitive(h: Hash, a: Server, b: Server, c: Server)
    requires TieCmp(h, a, b) <= 0 && TieCmp(h, b, c) <= 0
    ensures TieCmp(h, a, c) <= 0
  {
    StrCmpTransitive(a.ip, b.ip, c.ip);
    StrCmpOrder(a.ip, b.ip);
    StrCmpOrder(b.ip, c.ip);
    if h == Carbon && a.ip == b.ip == c.ip && a.instance.Some? && b.instance.Some? && c.instance.Some? {
      StrCmpTransitive(a.instance.value, b.instance.value, c.instance.value);
    }
  }

  /** Servers differ in the fields the comparator breaks ties on. */
  ghost predicate Distinguished(h: Hash, servers: set<Server>) {
    forall s, t :: s in servers && t in servers && SameKey(h, s, t) ==> s == t
  }

  // ---------------------------------------------------------------------
  // Reference: who owns a position, as a matter of the set of servers
  // ---------------------------------------------------------------------

  /** `hashpos` gives the positions of a server's replicas. */
  type HashPos = (Server, nat) -> nat

  ghost predicate InRange(hp: HashPos) {
    forall s, i :: hp(s, i) < POSITIONS
  }

  predicate At(hp: HashPos, s: Server, p: nat) {
    exists i :: 0 <= i < HASH_REPLICAS && hp(s, i) == p
  }

  /** The least server, by the tie-break, among those with a replica at `p`. */
  ghost predicate Owns(h: Hash, hp: HashPos, servers: set<Server>, p: nat, s: Server) {
    s in servers && At(hp, s, p) &&
    forall t :: t in servers && At(hp, t, p) ==> TieCmp(h, s, t) <= 0
  }

  ghost function Owner(h: Hash, hp: HashPos, servers: set<Server>, p: nat): Option<Server> {
    if exists s :: Owns(h, hp, servers, p, s)
    then var s :| Owns(h, hp, servers, p, s); Some(s) else None
  }

  lemma {:induction false} OwnerIsUnique(h: Hash, hp: HashPos, servers: set<Server>, p: nat, s: Server)
    requires Distinguished(h, servers) && Owns(h, hp, servers, p, s)
    ensures Owner(h, hp, servers, p) == Some(s)
  {
    var o := Owner(h, hp, servers, p).value;
    TieCmpOrder(h, s, o);
  }

  /** The owners met at the first `k` positions from `key` on, around the circle. */
  ghost function Owners(h: Hash, hp: HashPos, servers: set<Server>, key: nat, k: nat): seq<Server> {
    if k == 0 then []
    else
      var o := Owner(h, hp, servers, (key + k - 1) % POSITIONS);
      Owners(h, hp, servers, key, k - 1) + if o.Some? then [o.value] else []
  }

  /** The servers in the order a key prefers them. */
  ghost function Preference(h: Hash, hp: HashPos, servers: set<Server>, key: nat): seq<Server> {
    Dedup(Owners(h, hp, servers, key, POSITIONS))
  }

  lemma {:induction false} OwnersPrefix(h: Hash, hp: HashPos, servers: set<Server>, key: nat, j: nat, k: nat)
    requires j <= k
    ensures Owners(h, hp, servers, key, j) <= Owners(h, hp, servers, key, k)
    decreases k
  {
    if j < k {
      OwnersPrefix(h, hp, servers, key, j, k - 1);
    }
  }

  /** Without a server that owns none of the first positions, those keep their owners. */
  lemma {:induction false} OwnersWithout(h: Hash, hp: HashPos, servers: set<Server>, x: Server, key: nat, k: nat)
    requires Distinguished(h, servers) && x !in Owners(h, hp, servers, key, k)
    ensures Owners(h, hp, servers - {x}, key, k) == Owners(h, hp, servers, key, k)
    decreases k
  {
    if k > 0 {
      var p := (key + k - 1) % POSITIONS;
      OwnersWithout(h, hp, servers, x, key, k - 1);
      var o := Owner(h, hp, servers, p);
      if o.Some? {
        assert o.value in Owners(h, hp, servers, key, k);
        assert Owns(h, hp, servers - {x}, p, o.value);
        OwnerIsUnique(h, hp, servers - {x}, p, o.value);
      } else {
        OwnerlessStays(h, hp, servers, x, p);
      }
    }
  }

  lemma {:induction false} OwnerlessStays(h: Hash, hp: HashPos, servers: set<Server>, x: Server, p: nat)
    requires Owner(h, hp, servers, p).None?
    ensures Owner(h, hp, servers - {x}, p).None?
  {
    forall s | s in servers ensures !At(hp, s, p) {
      if At(hp, s, p) {
        var o := LeastAt(h, hp, servers, p, s);
      }
    }
  }

  /** Where a server has a replica there is an owner. */
  lemma {:induction false} LeastAt(h: Hash, hp: HashPos, servers: set<Server>, p: nat, s: Server) returns (o: Server)
    requires s in servers && At(hp, s, p)
    ensures Owns(h, hp, servers, p, o)
    decreases servers
  {
    if t :| t in servers && At(hp, t, p) && TieCmp(h, s, t) > 0 {
      TieCmpOrder(h, s, t);
      o := LeastAt(h, hp, servers - {s}, p, t);
      TieCmpOrder(h, o, t);
      TieCmpTransitive(h, o, t, s);
      assert forall u :: u in servers ==> u == s || u in servers - {s};
    } else {
      o := s;
    }
  }

  /**
   * Main result, stability: taking away a server that is not among a key's
   * first `r` choices leaves those choices as they were.
   */
  lemma {:induction false} RemovalKeepsChoices(h: Hash, hp: HashPos, servers: set<Server>, x: Server, key: nat, r: nat)
    requires Distinguished(h, servers)
    requires r <= |Preference(h, hp, servers, key)|
    requires x !in Preference(h, hp, servers, key)[..r]
    ensures r <= |Preference(h, hp, servers - {x}, key)|
    ensures Preference(h, hp, servers - {x}, key)[..r] == Preference(h, hp, servers, key)[..r]
  {
    var k := ChoicesWithin(h, hp, servers, key, r, POSITIONS);
    var near := Owners(h, hp, servers, key, k);
    ExtendedWalk(h, hp, servers, key, k, POSITIONS);
    assert Dedup(near) == Preference(h, hp, servers, key)[..r];
    DedupMembers(near);
    assert x !in near;
    OwnersWithout(h, hp, servers, x, key, k);
    ExtendedWalk(h, hp, servers - {x}, key, k, POSITIONS);
  }

  /** Some number of positions meets exactly `r` owners. */
  lemma {:induction false} ChoicesWithin(h: Hash, hp: HashPos, servers: set<Server>, key: nat, r: nat, n: nat)
    returns (k: nat)
    requires r <= |Dedup(Owners(h, hp, servers, key, n))|
    ensures k <= n && |Dedup(Owners(h, hp, servers, key, k))| == r
    decreases n
  {
    if |Dedup(Owners(h, hp, servers, key, n))| == r {
      k := n;
    } else {
      var o := Owner(h, hp, servers, (key + n - 1) % POSITIONS);
      var less := Owners(h, hp, servers, key, n - 1);
      if o.Some? {
        DedupSnoc(less, o.value);
      } else {
        assert less + [] == less;
      }
      k := ChoicesWithin(h, hp, servers, key, r, n - 1);
    }
  }

  lemma {:induction false} ExtendedWalk(h: Hash, hp: HashPos, servers: set<Server>, key: nat, k: nat, n: nat)
    requires k <= n
    ensures Dedup(Owners(h, hp, servers, key, k)) <= Dedup(Owners(h, hp, servers, key, n))
  {
    hide Owners, Dedup;
    var near, far := Owners(h, hp, servers, key, k), Owners(h, hp, servers, key, n);
    OwnersPrefix(h, hp, servers, key, k, n);
    assert far == near + far[|near|..];
    DedupPrefix(near, far[|near|..]);
  }

  // ---------------------------------------------------------------------
  // Construction
  // ---------------------------------------------------------------------

  function Replicas(hp: HashPos, s: Server): (r: seq<Entry>)
    ensures |r| == HASH_REPLICAS
  {
    seq(HASH_REPLICAS, i requires 0 <= i < HASH_REPLICAS => Entry(hp(s, i), s))
  }

  /** The entries as servers are added, before sorting. */
  function Raw(hp: HashPos, added: seq<Server>): (r: seq<Entry>)
    ensures |r| == HASH_REPLICAS * |added|
  {
    if added == [] then [] else Raw(hp, added[..|added| - 1]) + Replicas(hp, added[|added| - 1])
  }

  /** What `qsort` may leave: any sorted permutation. */
  ghost predicate IsSortOf(h: Hash, sorted: seq<Entry>, raw: seq<Entry>) {
    && multiset(sorted) == multiset(raw)
    && forall i, j :: 0 <= i < j < |sorted| ==> EntryCmp(h, sorted[i], sorted[j]) <= 0
  }

  /** Entries at the position of their predecessor take over its server. */
  function Overwritten(s: seq<Entry>): (r: seq<Entry>)
    ensures |r| == |s| && forall i :: 0 <= i < |s| ==> r[i].pos == s[i].pos
    decreases |s|
  {
    if |s| <= 1 then s
    else
      var n := |s| - 1;
      var d := Overwritten(s[..n]);
      d + [if s[n - 1].pos == s[n].pos then s[n].(server := d[n - 1].server) else s[n]]
  }

  /** A completed ring, described by the set of its servers alone. */
  ghost predicate IsRing(h: Hash, hp: HashPos, servers: set<Server>, ring: seq<Entry>) {
    && (forall i, j :: 0 <= i < j < |ring| ==> ring[i].pos <= ring[j].pos)
    && (forall i :: 0 <= i < |ring| ==> ring[i].pos < POSITIONS && Owns(h, hp, servers, ring[i].pos, ring[i].server))
    && (forall s, p {:trigger s in servers, Holds(ring, p)} :: s in servers && At(hp, s, p) ==> Holds(ring, p))
  }

  ghost predicate Holds(ring: seq<Entry>, p: nat) {
    exists i :: 0 <= i < |ring| && ring[i].pos == p
  }

  ghost function Members(added: seq<Server>): set<Server> {
    set s | s in added
  }

  lemma {:induction false} RawMembers(hp: HashPos, added: seq<Server>, e: Entry)
    ensures e in Raw(hp, added) <==> e.server in added && At(hp, e.server, e.pos)
    decreases |added|
  {
    if added != [] {
      var n := |added| - 1;
      RawMembers(hp, added[..n], e);
      assert added == added[..n] + [added[n]];
      var r := Replicas(hp, added[n]);
      if e.server == added[n] && At(hp, e.server, e.pos) {
        var i :| 0 <= i < HASH_REPLICAS && hp(e.server, i) == e.pos;
        assert r[i] == e;
      }
    }
  }

  /** Each entry gets its server from the first entry at its position. */
  lemma {:induction false} OverwrittenFrom(s: seq<Entry>, i: nat) returns (f: nat)
    requires i < |s|
    ensures f <= i && s[f].pos == s[i].pos && (f > 0 ==> s[f - 1].pos != s[f].pos)
    ensures Overwritten(s)[i].server == s[f].server
    decreases |s|
  {
    var n := |s| - 1;
    if n == 0 {
      f := 0;
    } else if i < n {
      f := OverwrittenFrom(s[..n], i);
    } else if s[n - 1].pos == s[n].pos {
      f := OverwrittenFrom(s[..n], n - 1);
    } else {
      f := n;
    }
  }

  lemma {:induction false} SortedPositions(h: Hash, sorted: seq<Entry>)
    requires forall i, j :: 0 <= i < j < |sorted| ==> EntryCmp(h, sorted[i], sorted[j]) <= 0
    ensures forall i, j :: 0 <= i < j < |sorted| ==> sorted[i].pos <= sorted[j].pos
  {
  }

  lemma {:induction false} OverwrittenOwns(h: Hash, hp: HashPos, added: seq<Server>, sorted: seq<Entry>, i: nat)
    requires IsSortOf(h, sorted, Raw(hp, added)) && i < |sorted|
    ensures Owns(h, hp, Members(added), sorted[i].pos, Overwritten(sorted)[i].server)
  {
    var f := OverwrittenFrom(sorted, i);
    var p, s := sorted[i].pos, sorted[f].server;
    SortedPositions(h, sorted);
    SortMembers(h, sorted, Raw(hp, added), sorted[f]);
    RawMembers(hp, added, sorted[f]);
    forall t | t in Members(added) && At(hp, t, p) ensures TieCmp(h, s, t) <= 0 {
      RawMembers(hp, added, Entry(p, t));
      SortMembers(h, sorted, Raw(hp, added), Entry(p, t));
      var j :| 0 <= j < |sorted| && sorted[j] == Entry(p, t);
      TieCmpOrder(h, s, s);
      assert f <= j;
      assert f < j ==> EntryCmp(h, sorted[f], sorted[j]) <= 0;
    }
  }

  lemma {:induction false} SortMembers(h: Hash, sorted: seq<Entry>, raw: seq<Entry>, e: Entry)
    requires IsSortOf(h, sorted, raw)
    ensures e in sorted <==> e in raw
  {
    assert e in multiset(sorted) <==> e in multiset(raw);
  }

  /** However the servers were added and `qsort` ordered equal entries, the result is the ring of their set. */
  lemma {:induction false} BuiltIsRing(h: Hash, hp: HashPos, added: seq<Server>, sorted: seq<Entry>)
    requires InRange(hp) && IsSortOf(h, sorted, Raw(hp, added))
    ensures IsRing(h, hp, Members(added), Overwritten(sorted))
  {
    var ring := Overwritten(sorted);
    SortedPositions(h, sorted);
    forall i | 0 <= i < |ring|
      ensures ring[i].pos < POSITIONS && Owns(h, hp, Members(added), ring[i].pos, ring[i].server)
    {
      OverwrittenOwns(h, hp, added, sorted, i);
    }
    forall s, p | s in Members(added) && At(hp, s, p) ensures Holds(ring, p) {
      RawMembers(hp, added, Entry(p, s));
      SortMembers(h, sorted, Raw(hp, added), Entry(p, s));
      var i :| 0 <= i < |sorted| && sorted[i] == Entry(p, s);
      assert ring[i].pos == p;
    }
  }

  // ---------------------------------------------------------------------
  // The linear cyclic scan
  // ---------------------------------------------------------------------

  function Servers(es: seq<Entry>): (r: seq<Server>)
    ensures |r| == |es| && forall i :: 0 <= i < |es| ==> r[i] == es[i].server
  {
    seq(|es|, i requires 0 <= i < |es| => es[i].server)
  }

  /** The entries from index `t` on, once around. */
  function Around(ring: seq<Entry>, t: nat): (r: seq<Entry>)
    requires t <= |ring|
    ensures |r| == |ring|
  {
    ring[t..] + ring[..t]
  }

  /** The first entry with pos >= key; the first of all when there is none. */
  ghost predicate IsFirst(ring: seq<Entry>, key: nat, f: nat) {
    || (f < |ring| && ring[f].pos >= key && forall i :: 0 <= i < f ==> ring[i].pos < key)
    || (f == 0 && forall i :: 0 <= i < |ring| ==> ring[i].pos < key)
  }

  function Offset(key: nat, e: Entry): int {
    if e.pos >= key then e.pos - key else e.pos - key + POSITIONS
  }

  /** A stretch of a walk: entries in order of distance from the key, none left out. */
  ghost predicate IsStretch(h: Hash, hp: HashPos, servers: set<Server>, key: nat, es: seq<Entry>, k: nat) {
    && (forall i, j :: 0 <= i < j < |es| ==> Offset(key, es[i]) <= Offset(key, es[j]))
    && (forall i :: 0 <= i < |es| ==>
          es[i].pos < POSITIONS && Offset(key, es[i]) < k && Owns(h, hp, servers, es[i].pos, es[i].server))
    && (forall s, p {:trigger s in servers, Holds(es, p)} ::
          s in servers && At(hp, s, p) && Offset(key, Entry(p, s)) < k ==> Holds(es, p))
  }

  lemma {:induction false} StretchMeetsOwners(h: Hash, hp: HashPos, servers: set<Server>, key: nat, es: seq<Entry>,
                                              k: nat)
    requires Distinguished(h, servers) && InRange(hp) && key < POSITIONS && k <= POSITIONS
    requires IsStretch(h, hp, servers, key, es, k)
    ensures Dedup(Servers(es)) == Dedup(Owners(h, hp, servers, key, k))
    decreases k
  {
    if k == 0 {
      NothingBelowZero(key, es);
      assert Servers(es) == [] == Owners(h, hp, servers, key, k);
    } else {
      var n := SplitAt(key, es, k - 1);
      ShorterStretch(h, hp, servers, key, es, k, n);
      StretchMeetsOwners(h, hp, servers, key, es[..n], k - 1);
      LastPosition(h, hp, servers, key, es, k, n);
    }
  }

  lemma {:induction false} NothingBelowZero(key: nat, es: seq<Entry>)
    requires key < POSITIONS && forall i :: 0 <= i < |es| ==> Offset(key, es[i]) < 0
    ensures es == []
  {
    if es != [] {
      var o := Offset(key, es[0]);
    }
  }

  lemma {:induction false} LastPosition(h: Hash, hp: HashPos, servers: set<Server>, key: nat, es: seq<Entry>, k: nat,
                                        n: nat)
    requires Distinguished(h, servers) && key < POSITIONS && 0 < k <= POSITIONS && n <= |es|
    requires IsStretch(h, hp, servers, key, es, k)
    requires forall i :: 0 <= i < n ==> Offset(key, es[i]) < k - 1
    requires forall i :: n <= i < |es| ==> es[i].pos == (key + k - 1) % POSITIONS
    requires Dedup(Servers(es[..n])) == Dedup(Owners(h, hp, servers, key, k - 1))
    ensures Dedup(Servers(es)) == Dedup(Owners(h, hp, servers, key, k))
  {
    if n < |es| {
      OwnedPosition(h, hp, servers, key, es, k, n);
    } else {
      NoOwnerOutside(h, hp, servers, key, es, k);
      FreePosition(h, hp, servers, key, es[..n], k);
      assert es[..n] == es;
    }
  }

  /** The last position of the stretch is nobody's: nothing new is met there. */
  lemma {:induction false} FreePosition(h: Hash, hp: HashPos, servers: set<Server>, key: nat, es: seq<Entry>, k: nat)
    requires 0 < k && Owner(h, hp, servers, (key + k - 1) % POSITIONS).None?
    requires Dedup(Servers(es)) == Dedup(Owners(h, hp, servers, key, k - 1))
    ensures Dedup(Servers(es)) == Dedup(Owners(h, hp, servers, key, k))
  {
    assert Owners(h, hp, servers, key, k) == Owners(h, hp, servers, key, k - 1);
  }

  /** The last position of the stretch has entries: they all bring its owner. */
  lemma {:induction false} OwnedPosition(h: Hash, hp: HashPos, servers: set<Server>, key: nat, es: seq<Entry>, k: nat,
                                         n: nat)
    requires Distinguished(h, servers) && 0 < k && n < |es|
    requires IsStretch(h, hp, servers, key, es, k)
    requires forall i :: n <= i < |es| ==> es[i].pos == (key + k - 1) % POSITIONS
    requires Dedup(Servers(es[..n])) == Dedup(Owners(h, hp, servers, key, k - 1))
    ensures Dedup(Servers(es)) == Dedup(Owners(h, hp, servers, key, k))
  {
    var p, s := (key + k - 1) % POSITIONS, es[n].server;
    RunHasOneServer(h, hp, servers, p, es[n..]);
    OwnerIsUnique(h, hp, servers, p, s);
    assert Servers(es) == Servers(es[..n]) + Servers(es[n..]);
    DedupRun(Servers(es[..n]), Servers(es[n..]), s);
    DedupSameTail(Servers(es[..n]), Owners(h, hp, servers, key, k - 1), [s]);
  }

  /** Entries at one position have one server. */
  lemma {:induction false} RunHasOneServer(h: Hash, hp: HashPos, servers: set<Server>, p: nat, es: seq<Entry>)
    requires Distinguished(h, servers)
    requires forall i :: 0 <= i < |es| ==> es[i].pos == p && Owns(h, hp, servers, p, es[i].server)
    ensures forall i :: 0 <= i < |es| ==> es[i].server == es[0].server
  {
    forall i | 0 <= i < |es| ensures es[i].server == es[0].server {
      OwnerIsUnique(h, hp, servers, p, es[i].server);
      OwnerIsUnique(h, hp, servers, p, es[0].server);
    }
  }

  lemma {:induction false} DedupRun(before: seq<Server>, run: seq<Server>, s: Server)
    requires run != [] && forall x :: x in run ==> x == s
    ensures Dedup(before + run) == Dedup(before + [s])
  {
    assert run[0] in run && forall x :: x in run[1..] ==> x in run;
    assert before + run == before + [s] + run[1..];
    assert (before + [s])[|before|] == s;
    DedupKnown(before + [s], run[1..]);
  }

  /** How many entries of the stretch lie below a distance. */
  lemma {:induction false} SplitAt(key: nat, es: seq<Entry>, k: int) returns (n: nat)
    requires forall i, j :: 0 <= i < j < |es| ==> Offset(key, es[i]) <= Offset(key, es[j])
    ensures n <= |es|
    ensures forall i :: 0 <= i < n ==> Offset(key, es[i]) < k
    ensures forall i :: n <= i < |es| ==> Offset(key, es[i]) >= k
  {
    n := 0;
    while n < |es| && Offset(key, es[n]) < k
      invariant n <= |es| && forall i :: 0 <= i < n ==> Offset(key, es[i]) < k
    {
      n := n + 1;
    }
  }

  lemma {:induction false} ShorterStretch(h: Hash, hp: HashPos, servers: set<Server>, key: nat, es: seq<Entry>, k: nat,
                                          n: nat)
    requires 0 < k <= POSITIONS && key < POSITIONS && n <= |es|
    requires IsStretch(h, hp, servers, key, es, k)
    requires forall i :: 0 <= i < n ==> Offset(key, es[i]) < k - 1
    requires forall i :: n <= i < |es| ==> Offset(key, es[i]) >= k - 1
    ensures IsStretch(h, hp, servers, key, es[..n], k - 1)
    ensures forall i :: n <= i < |es| ==> es[i].pos == (key + k - 1) % POSITIONS
  {
    forall s, p | s in servers && At(hp, s, p) && Offset(key, Entry(p, s)) < k - 1 ensures Holds(es[..n], p) {
      assert Holds(es, p);
      var i :| 0 <= i < |es| && es[i].pos == p;
      assert es[..n][i] == es[i];
    }
  }

  lemma {:induction false} NoOwnerOutside(h: Hash, hp: HashPos, servers: set<Server>, key: nat, es: seq<Entry>, k: nat)
    requires 0 < k <= POSITIONS && key < POSITIONS
    requires IsStretch(h, hp, servers, key, es, k)
    requires forall i :: 0 <= i < |es| ==> Offset(key, es[i]) < k - 1
    ensures Owner(h, hp, servers, (key + k - 1) % POSITIONS).None?
  {
    var p := (key + k - 1) % POSITIONS;
    forall s | s in servers ensures !At(hp, s, p) {
      assert Offset(key, Entry(p, s)) == k - 1;
      assert !Holds(es, p);
    }
  }

  /**
   * Main result, independence: the scan from the first entry at or after the key meets the servers in
   * the order of the set's preference.
   */
  lemma {:induction false} ScanIsPreference(h: Hash, hp: HashPos, servers: set<Server>, ring: seq<Entry>, key: nat,
                                            f: nat)
    requires Distinguished(h, servers) && InRange(hp) && key < POSITIONS
    requires IsRing(h, hp, servers, ring) && IsFirst(ring, key, f)
    ensures Dedup(Servers(Around(ring, f))) == Preference(h, hp, servers, key)
  {
    AroundInOrder(ring, key, f);
    AroundHolds(h, hp, servers, ring, f);
    StretchMeetsOwners(h, hp, servers, key, Around(ring, f), POSITIONS);
  }

  lemma {:induction false} AroundInOrder(ring: seq<Entry>, key: nat, f: nat)
    requires forall i, j :: 0 <= i < j < |ring| ==> ring[i].pos <= ring[j].pos
    requires forall i :: 0 <= i < |ring| ==> ring[i].pos < POSITIONS
    requires key < POSITIONS && IsFirst(ring, key, f)
    ensures var es := Around(ring, f);
            forall i, j :: 0 <= i < j < |es| ==> Offset(key, es[i]) <= Offset(key, es[j])
  {
  }

  lemma {:induction false} AroundHolds(h: Hash, hp: HashPos, servers: set<Server>, ring: seq<Entry>, f: nat)
    requires f <= |ring| && IsRing(h, hp, servers, ring)
    ensures var es := Around(ring, f);
            && (forall i :: 0 <= i < |es| ==> es[i].pos < POSITIONS && Owns(h, hp, servers, es[i].pos, es[i].server))
            && (forall s, p {:trigger s in servers, Holds(es, p)} :: s in servers && At(hp, s, p) ==> Holds(es, p))
  {
    var es := Around(ring, f);
    forall i | 0 <= i < |es| ensures es[i] == ring[if i < |ring| - f then i + f else i - (|ring| - f)] {
    }
    forall s, p | s in servers && At(hp, s, p) ensures Holds(es, p) {
      assert Holds(ring, p);
      var i :| 0 <= i < |ring| && ring[i].pos == p;
      assert es[if i >= f then i - f else i + (|ring| - f)] == ring[i];
    }
  }

  // ---------------------------------------------------------------------
  // Lookup: the loops of the source
  // ---------------------------------------------------------------------

  /** What the search may stop at. */
  ghost predicate IsStart(ring: seq<Entry>, key: nat, t: nat) {
    || (t < |ring| && ring[t].pos == key)
    || (t < |ring| && ring[t].pos > key && forall i :: 0 <= i < t ==> ring[i].pos < key)
    || (t >= |ring| && forall i :: 0 <= i < |ring| ==> ring[i].pos < key)
  }

  /**
   * The binary search.  `beyond` is whatever lies in the slot behind the last
   * entry, which the search may read; the result does not depend on it.
   */
  method Search(ring: seq<Entry>, beyond: nat, key: nat) returns (t: nat)
    requires |ring| >= 2
    requires forall i, j :: 0 <= i < j < |ring| ==> ring[i].pos <= ring[j].pos
    ensures IsStart(ring, key, t)
  {
    var i, j := 0, |ring|;
    while true
      invariant 0 <= i < j <= |ring| && i + 1 < j
      invariant i > 0 ==> ring[i].pos < key
      invariant j < |ring| ==> ring[j].pos > key
      decreases j - i
    {
      t := (i + j) / 2;
      if ring[t].pos == key {
        return;
      }
      if ring[t].pos < key {
        i := t;
        if i == j - 1 {
          var right := if j == |ring| then beyond else ring[j].pos;
          t := if right < key then j + 1 else j;
          return;
        }
      } else {
        j := t;
        if i == j - 1 {
          t := if ring[i].pos >= key then i else j;
          return;
        }
      }
    }
  }

  /** Is the server among the ones already chosen?  The inner loop, from the back. */
  method Chosen(ret: seq<Server>, s: Server) returns (found: bool)
    ensures found <==> s in ret
  {
    var j := |ret| - 1;
    while j >= 0
      invariant -1 <= j < |ret|
      invariant forall k :: j < k < |ret| ==> ret[k] != s
    {
      if ret[j] == s {
        return true;
      }
      j := j - 1;
    }
    return false;
  }

  /** The walk: unique servers from `t` on, around the ring. */
  method Walk(ring: seq<Entry>, start: nat, r: nat) returns (ret: seq<Server>)
    requires ring != [] && r <= |Dedup(Servers(Around(ring, if start < |ring| then start else 0)))|
    ensures ret == Dedup(Servers(Around(ring, if start < |ring| then start else 0)))[..r]
  {
    hide Dedup;
    DedupNone<Server>();
    ghost var from := if start < |ring| then start else 0;
    ghost var all := Servers(Around(ring, from));
    var t := start;
    ghost var seen := 0;
    ret := [];
    while |ret| < r
      invariant seen <= |ring| && (if t < |ring| then t else 0) == Wrapped(ring, from, seen)
      invariant ret == Dedup(all[..seen]) && |ret| <= r
      decreases |ring| - seen
    {
      WalkEnds(all, seen, r);
      if t >= |ring| {
        t := 0;
      }
      WalkStep(ring, from, seen);
      var known := Chosen(ret, ring[t].server);
      if !known {
        ret := ret + [ring[t].server];
      }
      t, seen := t + 1, seen + 1;
    }
    assert all == all[..seen] + all[seen..];
    DedupPrefix(all[..seen], all[seen..]);
  }

  /** The index reached after `seen` steps from `from`. */
  ghost function Wrapped(ring: seq<Entry>, from: nat, seen: nat): int {
    if from + seen < |ring| then from + seen else from + seen - |ring|
  }

  lemma {:induction false} WalkStep(ring: seq<Entry>, from: nat, seen: nat)
    requires from < |ring| && seen < |ring|
    ensures var all := Servers(Around(ring, from));
            var s := ring[Wrapped(ring, from, seen)].server;
            && all[seen] == s
            && Dedup(all[..seen + 1]) ==
               if s in Dedup(all[..seen]) then Dedup(all[..seen]) else Dedup(all[..seen]) + [s]
  {
    var all := Servers(Around(ring, from));
    assert all[..seen + 1] == all[..seen] + [all[seen]];
    DedupSnoc(all[..seen], all[seen]);
    DedupMembers(all[..seen]);
  }

  lemma {:induction false} WalkEnds(all: seq<Server>, seen: nat, r: nat)
    requires seen <= |all| && |Dedup(all[..seen])| < r <= |Dedup(all)|
    ensures seen < |all|
  {
    assert all[..|all|] == all;
  }

  /** The walk's outcome does not depend on where in a run of equal positions the search landed. */
  lemma {:induction false} StartInsideRun(h: Hash, hp: HashPos, servers: set<Server>, ring: seq<Entry>, key: nat,
                                          t: nat)
    returns (f: nat)
    requires Distinguished(h, servers) && IsRing(h, hp, servers, ring) && ring != []
    requires IsStart(ring, key, t)
    ensures IsFirst(ring, key, f) && f < |ring|
    ensures Dedup(Servers(Around(ring, if t < |ring| then t else 0))) == Dedup(Servers(Around(ring, f)))
  {
    hide Dedup, Owns, At, Around;
    if t < |ring| && ring[t].pos == key {
      f := t;
      while f > 0 && ring[f - 1].pos == key
        invariant f <= t && forall i :: f <= i <= t ==> ring[i].pos == key
      {
        f := f - 1;
      }
      RunHasOneServer(h, hp, servers, key, ring[f..t + 1]);
      assert forall i :: f <= i <= t ==> ring[i] == ring[f..t + 1][i - f];
      RotateRun(ring, f, t);
    } else {
      f := if t < |ring| then t else 0;
    }
  }

  lemma {:induction false} AroundRun(ring: seq<Entry>, f: nat, t: nat)
    requires f <= t < |ring|
    ensures var run, rest := Servers(ring[f..t]), Servers(ring[t + 1..]) + Servers(ring[..f]);
            && Servers(Around(ring, t)) == [ring[t].server] + rest + run
            && Servers(Around(ring, f)) == run + [ring[t].server] + rest
  {
    assert ring[t..] == [ring[t]] + ring[t + 1..] && ring[..t] == ring[..f] + ring[f..t];
    assert ring[f..] == ring[f..t] + [ring[t]] + ring[t + 1..];
  }

  lemma {:induction false} RotateRun(ring: seq<Entry>, f: nat, t: nat)
    requires f <= t < |ring|
    requires forall i :: f <= i <= t ==> ring[i].server == ring[t].server
    ensures Dedup(Servers(Around(ring, t))) == Dedup(Servers(Around(ring, f)))
  {
    hide Dedup, Around;
    var s := ring[t].server;
    var run, rest := Servers(ring[f..t]), Servers(ring[t + 1..]) + Servers(ring[..f]);
    AroundRun(ring, f, t);
    assert forall x :: x in run ==> x == s;
    assert ([s] + rest)[0] == s;
    DedupKnown([s] + rest, run);
    assert run + [s] == [] + (run + [s]) && [] + [s] == [s];
    DedupRun([], run + [s], s);
    DedupSameTail(run + [s], [s], rest);
  }

  /** Main result, lookup: search plus walk returns the set's first `r` choices for the key. */
  method GetNodes(ring: seq<Entry>, beyond: nat, key: nat, r: nat, ghost h: Hash, ghost hp: HashPos,
                  ghost servers: set<Server>)
    returns (ret: seq<Server>)
    requires |ring| >= 2 && key < POSITIONS && InRange(hp)
    requires Distinguished(h, servers) && IsRing(h, hp, servers, ring)
    requires r <= |set s | s in Servers(ring)|
    ensures r <= |Preference(h, hp, servers, key)|
    ensures ret == Preference(h, hp, servers, key)[..r]
  {
    var t := Search(ring, beyond, key);
    ghost var f := StartInsideRun(h, hp, servers, ring, key, t);
    ScanIsPreference(h, hp, servers, ring, key, f);
    AroundCount(ring, f);
    ret := Walk(ring, t, r);
  }

  lemma {:induction false} AroundCount(ring: seq<Entry>, f: nat)
    requires f <= |ring|
    ensures |Dedup(Servers(Around(ring, f)))| == |set s | s in Servers(ring)|
  {
    var a, b := Servers(Around(ring, f)), Servers(ring);
    assert a == b[f..] + b[..f] && b == b[..f] + b[f..];
    assert (set s | s in a) == (set s | s in b);
    DedupCount(a);
  }

  /** Two rings with the same servers agree, in whatever order those were added and sorted. */
  lemma {:induction false} OrderDoesNotMatter(
    h: Hash, hp: HashPos, added1: seq<Server>, sorted1: seq<Entry>, f1: nat,
    added2: seq<Server>, sorted2: seq<Entry>, f2: nat, key: nat)
    requires InRange(hp) && key < POSITIONS && Members(added1) == Members(added2)
    requires Distinguished(h, Members(added1))
    requires IsSortOf(h, sorted1, Raw(hp, added1)) && IsFirst(Overwritten(sorted1), key, f1)
    requires IsSortOf(h, sorted2, Raw(hp, added2)) && IsFirst(Overwritten(sorted2), key, f2)
    ensures Dedup(Servers(Around(Overwritten(sorted1), f1))) == Dedup(Servers(Around(Overwritten(sorted2), f2)))
  {
    BuiltIsRing(h, hp, added1, sorted1);
    BuiltIsRing(h, hp, added2, sorted2);
    ScanIsPreference(h, hp, Members(added1), Overwritten(sorted1), key, f1);
    ScanIsPreference(h, hp, Members(added1), Overwritten(sorted2), key, f2);
  }

  // ---------------------------------------------------------------------
  // The ring object
  // ---------------------------------------------------------------------

  const CONN_DESTS_SIZE := 64

  class HashRing {
    const hash: Hash
    const hashpos: HashPos
    const entrylist: array<Entry>
    var entrycnt: nat
    ghost var added: seq<Server>

    ghost predicate Valid()
      reads this, entrylist
    {
      && InRange(hashpos)
      && entrycnt == HASH_REPLICAS * |added| <= entrylist.Length
      && entrylist.Length % HASH_REPLICAS == 0
      && (entrycnt < entrylist.Length ==> entrylist[..entrycnt] == Raw(hashpos, added))
      && (Complete() ==> IsRing(hash, hashpos, Members(added), entrylist[..]))
    }

    predicate Complete()
      reads this
    {
      entrycnt == entrylist.Length > 0
    }

    constructor (hash: Hash, hashpos: HashPos, servercnt: nat)
      requires servercnt <= CONN_DESTS_SIZE && InRange(hashpos)
      ensures Valid() && added == [] && fresh(entrylist)
      ensures entrylist.Length == HASH_REPLICAS * servercnt && this.hash == hash && this.hashpos == hashpos
    {
      this.hash := hash;
      this.hashpos := hashpos;
      entrylist := new Entry[HASH_REPLICAS * servercnt](_ => Entry(0, Server(0, "", 0, None)));
      entrycnt := 0;
      added := [];
    }

    /** Adds a server; with the last one the entries are sorted (into `sorted`) and overwritten. */
    method AddNode(s: Server, sorted: seq<Entry>)
      requires Valid() && entrycnt < entrylist.Length
      requires entrycnt + HASH_REPLICAS == entrylist.Length ==> IsSortOf(hash, sorted, Raw(hashpos, added + [s]))
      modifies this, entrylist
      ensures Valid() && added == old(added) + [s]
      ensures Complete() <==> old(entrycnt) + HASH_REPLICAS == entrylist.Length
    {
      FillReplicas(s);
      entrycnt := entrycnt + HASH_REPLICAS;
      added := added + [s];
      assert added[..|added| - 1] == old(added);
      if entrycnt == entrylist.Length {
        SortLength(hash, sorted, Raw(hashpos, added));
        forall i | 0 <= i < entrycnt {
          entrylist[i] := sorted[i];
        }
        assert entrylist[..] == sorted;
        OverwriteDuplicates(entrylist);
        BuiltIsRing(hash, hashpos, added, sorted);
      }
    }

    method FillReplicas(s: Server)
      requires entrycnt + HASH_REPLICAS <= entrylist.Length
      modifies entrylist
      ensures entrylist[..entrycnt + HASH_REPLICAS] == old(entrylist[..entrycnt]) + Replicas(hashpos, s)
    {
      var i := 0;
      while i < HASH_REPLICAS
        invariant 0 <= i <= HASH_REPLICAS
        invariant entrylist[..entrycnt] == old(entrylist[..entrycnt])
        invariant entrylist[entrycnt..entrycnt + i] == Replicas(hashpos, s)[..i]
      {
        entrylist[entrycnt + i] := Entry(hashpos(s, i), s);
        assert Replicas(hashpos, s)[..i + 1] == Replicas(hashpos, s)[..i] + [Entry(hashpos(s, i), s)];
        i := i + 1;
      }
      assert entrylist[..entrycnt + i] == entrylist[..entrycnt] + entrylist[entrycnt..entrycnt + i];
    }

    /** The servers for a key on a completed ring; `beyond` is the slot behind the array. */
    method Lookup(key: nat, r: nat, beyond: nat) returns (ret: seq<Server>)
      requires Valid() && Complete() && key < POSITIONS
      requires Distinguished(hash, Members(added))
      requires r <= |set s | s in Servers(entrylist[..])|
      ensures r <= |Preference(hash, hashpos, Members(added), key)|
      ensures ret == Preference(hash, hashpos, Members(added), key)[..r]
    {
      ret := GetNodes(entrylist[..], beyond, key, r, hash, hashpos, Members(added));
    }
  }

  lemma {:induction false} SortLength(h: Hash, sorted: seq<Entry>, raw: seq<Entry>)
    requires IsSortOf(h, sorted, raw)
    ensures |sorted| == |raw|
  {
    assert |multiset(sorted)| == |sorted| && |multiset(raw)| == |raw|;
  }

  /** The loop that lets equal positions share the first one's server. */
  method OverwriteDuplicates(a: array<Entry>)
    modifies a
    ensures a[..] == Overwritten(old(a[..]))
  {
    ghost var was := a[..];
    var i := 0;
    assert a.Length > 0 ==> a[..1] == was[..1];
    while i < a.Length - 1
      invariant 0 <= i && (a.Length > 0 ==> i < a.Length)
      invariant a.Length > 0 ==> a[..i + 1] == Overwritten(was[..i + 1])
      invariant forall j :: i < j < a.Length ==> a[j] == was[j]
    {
      assert was[..i + 2][..i + 1] == was[..i + 1];
      if a[i].pos == a[i + 1].pos {
        a[i + 1] := a[i + 1].(server := a[i].server);
      }
      assert a[..i + 2] == a[..i + 1] + [a[i + 1]];
      i := i + 1;
    }
    assert a.Length > 0 ==> was[..i + 1] == was && a[..i + 1] == a[..];
  }
}
