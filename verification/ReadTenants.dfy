/** delegated.ReadTenantSource: the bounded, swept table of proof-derived tenants. */
module ReadTenants {
  import opened Prelude
  import opened Caveats
  import opened Svpdt

  const MAX_READ_TENANTS := 4096

  datatype TenantPolicy = TenantPolicy(tenantID: string, owner: string, allowedSubaccounts: set<uint32>)
  datatype TenantContext = TenantContext(tenantID: string, owner: string)
  datatype Tenant = Tenant(policy: TenantPolicy, expires: int64)
  type Table = map<string, Tenant>

  // -- tenant ids ------------------------------------------------------------------

  function HexDigit(n: nat): char
    requires n < 16
  {
    if n < 10 then ('0' as int + n) as char else ('a' as int + (n - 10)) as char
  }

  function Hex(b: Bytes): string {
    if b == [] then "" else [HexDigit(b[0] / 16), HexDigit(b[0] % 16)] + Hex(b[1..])
  }

  /** The chain hash is 32 bytes; its first eight name the tenant. */
  function TenantID(chainHash: Bytes): string
    requires |chainHash| == 32
  {
    "svpdt-" + Hex(chainHash[..8])
  }

  lemma {:induction false} HexInjective(a: Bytes, b: Bytes)
    requires Hex(a) == Hex(b)
    ensures a == b
  {
    if a != [] && b != [] {
      assert Hex(a)[0] == HexDigit(a[0] / 16) && Hex(a)[1] == HexDigit(a[0] % 16);
      assert Hex(b)[0] == HexDigit(b[0] / 16) && Hex(b)[1] == HexDigit(b[0] % 16);
      assert Hex(a)[2..] == Hex(a[1..]) && Hex(b)[2..] == Hex(b[1..]);
      HexInjective(a[1..], b[1..]);
      assert a == [a[0]] + a[1..] && b == [b[0]] + b[1..];
    }
  }

  /** Two characters a byte, its high half first. */
  lemma {:induction false} HexByPlace(b: Bytes, i: nat)
    requires i < |b|
    ensures |Hex(b)| == 2 * |b|
    ensures Hex(b)[2 * i] == "0123456789abcdef"[b[i] / 16] && Hex(b)[2 * i + 1] == "0123456789abcdef"[b[i] % 16]
  {
    HexLength(b);
    if i > 0 {
      HexByPlace(b[1..], i - 1);
      assert Hex(b)[2..] == Hex(b[1..]);
      assert Hex(b)[2..][2 * (i - 1)] == Hex(b)[2 * i] && Hex(b)[2..][2 * (i - 1) + 1] == Hex(b)[2 * i + 1];
    }
  }

  lemma {:induction false} HexLength(b: Bytes)
    ensures |Hex(b)| == 2 * |b|
  {
    if b != [] {
      HexLength(b[1..]);
    }
  }

  /** Two credentials share a tenant exactly when their chain hashes share eight bytes; the same
      credential always comes back to the same one. */
  lemma TenantIDShared(h: Bytes, k: Bytes)
    requires |h| == |k| == 32
    ensures TenantID(h) == TenantID(k) <==> h[..8] == k[..8]
    ensures |TenantID(h)| == 22 && TenantID(h)[..6] == "svpdt-" && TenantID(h)[6..] == Hex(h[..8])
  {
    HexLength(h[..8]);
    assert TenantID(h)[..6] == "svpdt-" && TenantID(h)[6..] == Hex(h[..8]);
    if TenantID(h) == TenantID(k) {
      assert TenantID(h)[6..] == Hex(h[..8]) && TenantID(k)[6..] == Hex(k[..8]);
      HexInjective(h[..8], k[..8]);
    }
  }

  // -- one operation at a time -----------------------------------------------------

  predicate Live(t: Table, id: string, now: int64) {
    id in t && now < t[id].expires
  }

  function LiveIds(t: Table, now: int64): set<string> {
    set id | id in t && now < t[id].expires
  }

  function Swept(t: Table, now: int64): Table {
    map id | id in t && now < t[id].expires :: t[id]
  }

  /** The table after an admission: swept, then grown only below the bound. */
  function Admitted(t: Table, now: int64, id: string, tenant: Tenant): Table {
    var s := Swept(t, now);
    if id !in s && |s| >= MAX_READ_TENANTS then s else s[id := tenant]
  }

  function LookedUp(t: Table, now: int64, id: string): Option<TenantPolicy> {
    if Live(t, id, now) then Some(t[id].policy) else None
  }

  function TenantOf(v: Verified): Tenant
    requires |v.chainHash| == 32
  {
    Tenant(TenantPolicy(TenantID(v.chainHash), v.principal, v.effective.subaccounts), v.leafExp)
  }

  class ReadTenantSource {
    var byID: Table

    constructor ()
      ensures byID == map[]
    {
      byID := map[];
    }

    method SweepLocked(now: int64)
      modifies this
      ensures byID == Swept(old(byID), now)
    {
      var pending := byID.Keys;
      while pending != {}
        invariant pending <= old(byID).Keys
        invariant byID.Keys <= old(byID).Keys
        invariant forall id :: id in byID ==> byID[id] == old(byID)[id]
        invariant forall id :: id in old(byID) ==>
                    (id in byID <==> id in pending || now < old(byID)[id].expires)
        decreases pending
      {
        var id :| id in pending;
        pending := pending - {id};
        if now >= byID[id].expires {
          byID := map k | k in byID && k != id :: byID[k];
        }
      }
    }

    method Admit(v: Verified, now: int64) returns (tc: TenantContext)
      requires |v.chainHash| == 32
      modifies this
      ensures tc == TenantContext(TenantID(v.chainHash), v.principal)
      ensures byID == Admitted(old(byID), now, TenantID(v.chainHash), TenantOf(v))
      ensures tc.tenantID in byID ==>
                var tenant := byID[tc.tenantID];
                && tenant.expires == v.leafExp
                && tenant.policy.tenantID == tc.tenantID && tenant.policy.owner == v.principal
                && forall n :: n in tenant.policy.allowedSubaccounts <==> n in v.effective.subaccounts
    {
      var id := TenantID(v.chainHash);
      var subs: set<uint32> := {};
      var pending := v.effective.subaccounts;
      while pending != {}
        invariant subs + pending == v.effective.subaccounts
        decreases pending
      {
        var n :| n in pending;
        subs := subs + {n};
        pending := pending - {n};
      }
      SweepLocked(now);
      if id !in byID && |byID| >= MAX_READ_TENANTS {
        return TenantContext(id, v.principal);
      }
      byID := byID[id := Tenant(TenantPolicy(id, v.principal, subs), v.leafExp)];
      return TenantContext(id, v.principal);
    }

    method LookupTenantPolicy(tenantID: string, now: int64) returns (r: Option<TenantPolicy>)
      ensures r == LookedUp(byID, now, tenantID)
    {
      if tenantID !in byID || now >= byID[tenantID].expires {
        return None;
      }
      return Some(byID[tenantID].policy);
    }
  }

  // -- the same service without sweeping ---------------------------------------------

  /** The reference: nothing is ever deleted, and an admission is refused exactly when its id is
      not live and as many ids as the bound already are. */
  function Remembered(t: Table, now: int64, id: string, tenant: Tenant): Table {
    if !Live(t, id, now) && |LiveIds(t, now)| >= MAX_READ_TENANTS then t else t[id := tenant]
  }

  /** From time now on, no lookup can tell the two tables apart. */
  ghost predicate Agree(swept: Table, full: Table, now: int64) {
    && (forall id :: Live(full, id, now) ==> id in swept && swept[id] == full[id])
    && (forall id :: Live(swept, id, now) ==> id in full && full[id] == swept[id])
  }

  lemma SweptIsLive(swept: Table, full: Table, now: int64)
    requires Agree(swept, full, now)
    ensures Swept(swept, now).Keys == LiveIds(full, now)
    ensures |Swept(swept, now)| == |LiveIds(full, now)|
  {
    forall id ensures id in Swept(swept, now) <==> id in LiveIds(full, now) {
      assert Live(full, id, now) <==> Live(swept, id, now);
    }
    assert Swept(swept, now).Keys == LiveIds(full, now);
    assert |Swept(swept, now)| == |Swept(swept, now).Keys|;
  }

  lemma AdmitAgrees(swept: Table, full: Table, now: int64, id: string, tenant: Tenant)
    requires Agree(swept, full, now)
    ensures Agree(Admitted(swept, now, id, tenant), Remembered(full, now, id, tenant), now)
  {
    SweptIsLive(swept, full, now);
    assert id in Swept(swept, now) <==> Live(full, id, now);
  }

  lemma LaterAgrees(swept: Table, full: Table, now: int64, later: int64)
    requires Agree(swept, full, now) && now <= later
    ensures Agree(swept, full, later)
  {
    forall id | Live(full, id, later) ensures id in swept && swept[id] == full[id] {
      assert Live(full, id, now);
    }
    forall id | Live(swept, id, later) ensures id in full && full[id] == swept[id] {
      assert Live(swept, id, now);
    }
  }

  // -- whole runs ----------------------------------------------------------------------

  /** Each operation holds the lock throughout, so a run of concurrent callers is a sequence. */
  datatype Op =
    | Admit(at: int64, id: string, tenant: Tenant)
    | Lookup(at: int64, id: string)

  predicate Monotone(ops: seq<Op>, from: int64) {
    ops == [] || (from <= ops[0].at && Monotone(ops[1..], ops[0].at))
  }

  /** What the lookups of a run answer, in order. */
  function Answers(t: Table, ops: seq<Op>): seq<Option<TenantPolicy>>
    decreases |ops|
  {
    if ops == [] then []
    else match ops[0]
         case Admit(at, id, tenant) => Answers(Admitted(t, at, id, tenant), ops[1..])
         case Lookup(at, id) => [LookedUp(t, at, id)] + Answers(t, ops[1..])
  }

  function ReferenceAnswers(t: Table, ops: seq<Op>): seq<Option<TenantPolicy>>
    decreases |ops|
  {
    if ops == [] then []
    else match ops[0]
         case Admit(at, id, tenant) => ReferenceAnswers(Remembered(t, at, id, tenant), ops[1..])
         case Lookup(at, id) => [LookedUp(t, at, id)] + ReferenceAnswers(t, ops[1..])
  }

  function TableAfter(t: Table, ops: seq<Op>): Table
    decreases |ops|
  {
    if ops == [] then t
    else match ops[0]
         case Admit(at, id, tenant) => TableAfter(Admitted(t, at, id, tenant), ops[1..])
         case Lookup(at, id) => TableAfter(t, ops[1..])
  }

  lemma {:induction false} SameAnswersFrom(swept: Table, full: Table, ops: seq<Op>, now: int64)
    requires Agree(swept, full, now) && Monotone(ops, now)
    ensures Answers(swept, ops) == ReferenceAnswers(full, ops)
    decreases |ops|
  {
    if ops != [] {
      var at := ops[0].at;
      LaterAgrees(swept, full, now, at);
      match ops[0]
      case Admit(_, id, tenant) =>
        AdmitAgrees(swept, full, at, id, tenant);
        SameAnswersFrom(Admitted(swept, at, id, tenant), Remembered(full, at, id, tenant), ops[1..], at);
      case Lookup(_, id) =>
        assert Live(swept, id, at) <==> Live(full, id, at);
        SameAnswersFrom(swept, full, ops[1..], at);
    }
  }

  /** Over every run with a clock that never goes back, sweeping is invisible. */
  lemma SweepingIsInvisible(ops: seq<Op>, start: int64)
    requires Monotone(ops, start)
    ensures Answers(map[], ops) == ReferenceAnswers(map[], ops)
  {
    SameAnswersFrom(map[], map[], ops, start);
  }

  /** The clock must not go back: after a jump back, a swept tenant is gone that the reference
      still has. */
  lemma SweepingShowsWhenTheClockGoesBack(tenant: Tenant, other: Tenant)
    requires tenant.expires == 10
    ensures var ops := [Op.Admit(0, "a", tenant), Op.Admit(20, "b", other), Lookup(5, "a")];
            Answers(map[], ops) == [None] && ReferenceAnswers(map[], ops) == [Some(tenant.policy)]
  {
    var a, b, c := Op.Admit(0, "a", tenant), Op.Admit(20, "b", other), Lookup(5, "a");
    var ops := [a, b, c];
    assert ops[1..] == [b, c] && ops[1..][1..] == [c] && [c][1..] == [];
    var t1 := Admitted(map[], 0, "a", tenant);
    var t2 := Admitted(t1, 20, "b", other);
    assert Swept(t1, 20) == map[];
    assert Answers(t2, [c]) == [LookedUp(t2, 5, "a")] + Answers(t2, []);
    assert Answers(map[], ops) == Answers(t1, [b, c]) == Answers(t2, [c]);
    var r1 := Remembered(map[], 0, "a", tenant);
    var r2 := Remembered(r1, 20, "b", other);
    assert LiveIds(map[], 0) == {} && LiveIds(r1, 20) == {};
    assert ReferenceAnswers(r2, [c]) == [LookedUp(r2, 5, "a")] + ReferenceAnswers(r2, []);
    assert ReferenceAnswers(map[], ops) == ReferenceAnswers(r1, [b, c]) == ReferenceAnswers(r2, [c]);
  }

  lemma SweptIsSmaller(t: Table, now: int64)
    ensures |Swept(t, now)| <= |t|
    ensures Swept(t, now).Keys <= t.Keys
  {
    var s := Swept(t, now);
    assert s.Keys <= t.Keys;
    SubsetSize(s.Keys, t.Keys);
    assert |s| == |s.Keys| && |t| == |t.Keys|;
  }

  lemma {:induction false} SubsetSize<T>(a: set<T>, b: set<T>)
    requires a <= b
    ensures |a| <= |b|
  {
    if a != {} {
      var x :| x in a;
      SubsetSize(a - {x}, b - {x});
    }
  }

  /** The bound, 4096 tenants, holds after every run, and re-admitting a live id never grows the table. */
  lemma {:induction false} TableStaysBounded(t: Table, ops: seq<Op>)
    requires |t| <= MAX_READ_TENANTS
    ensures |TableAfter(t, ops)| <= MAX_READ_TENANTS == 4096
    decreases |ops|
  {
    if ops != [] {
      match ops[0]
      case Admit(at, id, tenant) =>
        AdmissionGrowth(t, at, id, tenant);
        TableStaysBounded(Admitted(t, at, id, tenant), ops[1..]);
      case Lookup(_, _) =>
        TableStaysBounded(t, ops[1..]);
    }
  }

  lemma AdmissionGrowth(t: Table, now: int64, id: string, tenant: Tenant)
    requires |t| <= MAX_READ_TENANTS
    ensures |Admitted(t, now, id, tenant)| <= MAX_READ_TENANTS
    ensures Live(t, id, now) ==> |Admitted(t, now, id, tenant)| <= |t|
  {
    SweptIsSmaller(t, now);
    var s := Swept(t, now);
    if id in s {
      assert s[id := tenant].Keys == s.Keys;
      assert |s[id := tenant]| == |s[id := tenant].Keys|;
    } else {
      assert s[id := tenant].Keys == s.Keys + {id};
      assert |s[id := tenant]| == |s[id := tenant].Keys|;
    }
  }

  /** Nothing in the run admits this id again. */
  predicate Untouched(ops: seq<Op>, id: string) {
    forall op | op in ops :: op.Admit? ==> op.id != id
  }

  lemma {:induction false} AbsentStaysAbsent(t: Table, ops: seq<Op>, id: string)
    requires id !in t && Untouched(ops, id)
    ensures id !in TableAfter(t, ops)
    decreases |ops|
  {
    if ops != [] {
      assert ops[0] in ops;
      match ops[0]
      case Admit(at, other, tenant) => AbsentStaysAbsent(Admitted(t, at, other, tenant), ops[1..], id);
      case Lookup(_, _) => AbsentStaysAbsent(t, ops[1..], id);
    }
  }

  /** A tenant, once in, answers with its latest admitted policy exactly until that admission's
      expiry, whatever other ids are admitted, refused or looked up meanwhile. */
  lemma {:induction false} TenantAnswersUntilExpiry(t: Table, ops: seq<Op>, id: string, now: int64, later: int64)
    requires id in t && Monotone(ops, now) && Untouched(ops, id)
    requires forall op | op in ops :: op.at <= later
    ensures LookedUp(TableAfter(t, ops), later, id) == if later < t[id].expires then Some(t[id].policy) else None
    decreases |ops|
  {
    if ops != [] {
      assert ops[0] in ops;
      match ops[0]
      case Admit(at, other, tenant) =>
        var next := Admitted(t, at, other, tenant);
        if at < t[id].expires {
          assert id in next && next[id] == t[id];
          TenantAnswersUntilExpiry(next, ops[1..], id, at, later);
        } else {
          AbsentStaysAbsent(next, ops[1..], id);
        }
      case Lookup(at, _) =>
        TenantAnswersUntilExpiry(t, ops[1..], id, at, later);
    }
  }
}
