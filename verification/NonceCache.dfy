/** The replay cache of core/onvif_wsse.c: sixteen slots written round robin. */
module NonceCache {
  import opened CText

  const SLOTS: nat := 16

  type Digest = d: seq<Byte> | |d| == 20 witness seq(20, _ => 0)

  datatype Cache = Cache(hashes: seq<Digest>, created: seq<int>, used: seq<bool>, next: nat)

  predicate IsCache(c: Cache) {
    |c.hashes| == |c.created| == |c.used| == SLOTS && c.next < 0x1_0000_0000
  }

  predicate Seen(c: Cache, h: Digest)
    requires IsCache(c)
  {
    exists i :: 0 <= i < SLOTS && c.used[i] && c.hashes[i] == h
  }

  function Stored(c: Cache, h: Digest, created: int): (r: Cache)
    requires IsCache(c)
    ensures IsCache(r)
  {
    var slot := c.next % SLOTS;
    Cache(c.hashes[slot := h], c.created[slot := created], c.used[slot := true], (c.next + 1) % 0x1_0000_0000)
  }

  /** Refused as a replay, or accepted and remembered. */
  function Admit(c: Cache, h: Digest, created: int): (r: (bool, Cache))
    requires IsCache(c)
    ensures IsCache(r.1)
  {
    if Seen(c, h) then (false, c) else (true, Stored(c, h, created))
  }

  // ----- the code -----

  /** `ct_memeq`: no early exit, the differences are or-ed together. */
  method MemEq(a: seq<Byte>, b: seq<Byte>, n: nat) returns (eq: bool)
    requires n <= |a| && n <= |b|
    ensures eq <==> a[..n] == b[..n]
  {
    var diff: nat := 0;
    for i := 0 to n
      invariant diff == 0 <==> a[..i] == b[..i]
    {
      XorZero(a[i], b[i]);
      OrZero(diff, Xor(a[i], b[i]));
      assert a[..i + 1] == a[..i] + [a[i]] && b[..i + 1] == b[..i] + [b[i]];
      diff := Or(diff, Xor(a[i], b[i]));
    }
    eq := diff == 0;
  }

  /** `a ^ b`, bit by bit. */
  function Xor(a: nat, b: nat): nat {
    if a == 0 && b == 0 then 0 else 2 * Xor(a / 2, b / 2) + (a % 2 + b % 2) % 2
  }

  /** `a | b`, bit by bit. */
  function Or(a: nat, b: nat): nat {
    if a == 0 && b == 0 then 0 else 2 * Or(a / 2, b / 2) + (if a % 2 == 1 || b % 2 == 1 then 1 else 0)
  }

  lemma {:induction false} XorZero(a: nat, b: nat)
    ensures Xor(a, b) == 0 <==> a == b
  {
    if a != 0 || b != 0 { XorZero(a / 2, b / 2); }
  }

  lemma {:induction false} OrZero(a: nat, b: nat)
    ensures Or(a, b) == 0 <==> a == 0 && b == 0
  {
    if a != 0 || b != 0 { OrZero(a / 2, b / 2); }
  }

  class NonceCache {
    const nonceHash: array<Digest>
    const createdUnix: array<int>
    const used: array<bool>
    var next: nat

    ghost predicate Valid()
      reads this
    {
      nonceHash.Length == SLOTS && createdUnix.Length == SLOTS && used.Length == SLOTS && next < 0x1_0000_0000
    }

    ghost function View(): (c: Cache)
      requires Valid()
      reads this, nonceHash, createdUnix, used
      ensures IsCache(c)
    {
      Cache(nonceHash[..], createdUnix[..], used[..], next)
    }

    /** A zeroed cache. */
    constructor ()
      ensures Valid() && fresh(nonceHash) && fresh(createdUnix) && fresh(used)
      ensures View() == Zeroed()
    {
      nonceHash := new Digest[SLOTS](_ => seq(20, _ => 0));
      createdUnix := new int[SLOTS](_ => 0);
      used := new bool[SLOTS](_ => false);
      next := 0;
      new;
      assert nonceHash[..] == Zeroed().hashes && createdUnix[..] == Zeroed().created && used[..] == Zeroed().used;
    }

    method Lookup(h: Digest) returns (seen: bool)
      requires Valid()
      ensures seen <==> Seen(View(), h)
    {
      for i := 0 to SLOTS
        invariant forall k :: 0 <= k < i ==> !(used[k] && nonceHash[k] == h)
      {
        if used[i] {
          var same := MemEq(nonceHash[i], h, 20);
          if same {
            assert nonceHash[i][..20] == nonceHash[i] && h[..20] == h;
            assert View().used[i] && View().hashes[i] == h;
            return true;
          }
        }
      }
      return false;
    }

    /** The replay guard at the end of `onvif_wsse_verify`. */
    method Check(h: Digest, created: int) returns (ok: bool)
      requires Valid()
      modifies this, nonceHash, createdUnix, used
      ensures Valid()
      ensures (ok, View()) == Admit(old(View()), h, created)
    {
      var seen := Lookup(h);
      if seen {
        return false;
      }
      var slot := next % SLOTS;
      nonceHash[slot] := h;
      createdUnix[slot] := created;
      used[slot] := true;
      next := (next + 1) % 0x1_0000_0000;
      assert View() == Stored(old(View()), h, created);
      return true;
    }
  }

  function Zeroed(): (c: Cache)
    ensures IsCache(c)
  {
    Cache(seq(SLOTS, _ => seq(20, _ => 0)), seq(SLOTS, _ => 0), seq(SLOTS, _ => false), 0)
  }

  // ----- runs -----

  /** A digest-accepted token: the hash of its nonce and its Created time. */
  datatype Entry = Entry(hash: Digest, created: int)

  /** The cache after a run of tokens, and the accepted ones in order. */
  function RunAll(tokens: seq<Entry>): (r: (Cache, seq<Entry>))
    ensures IsCache(r.0)
  {
    if tokens == [] then (Zeroed(), [])
    else
      var (c, accepted) := RunAll(tokens[..|tokens| - 1]);
      var t := tokens[|tokens| - 1];
      var (ok, c') := Admit(c, t.hash, t.created);
      (c', if ok then accepted + [t] else accepted)
  }

  /** Position of the oldest accepted token the cache still remembers. */
  function OldestKept(accepted: seq<Entry>): nat {
    if |accepted| <= 16 then 0 else |accepted| - 16
  }

  /** Token `j` sits in slot `j % 16`. */
  predicate Sits(c: Cache, accepted: seq<Entry>, j: nat)
    requires IsCache(c)
  {
    j < |accepted| && c.used[j % 16] &&
    c.hashes[j % 16] == accepted[j].hash && c.created[j % 16] == accepted[j].created
  }

  /** The used slots hold the last min(16, k) accepted tokens and nothing else, `next` is the number
      accepted modulo 2^32, and the remembered hashes are pairwise distinct. */
  ghost predicate HoldsLast(c: Cache, accepted: seq<Entry>) {
    && IsCache(c)
    && c.next == |accepted| % 0x1_0000_0000
    && (forall j :: OldestKept(accepted) <= j < |accepted| ==> Sits(c, accepted, j))
    && (forall i :: 0 <= i < 16 ==> (c.used[i] <==> i < |accepted|))
    && (forall i, j :: OldestKept(accepted) <= i < j < |accepted| ==> accepted[i].hash != accepted[j].hash)
  }

  /** Wrapping `next` at 2^32 does not disturb the slots, because 16 divides 2^32. */
  lemma SlotSurvivesWrap(k: nat)
    ensures k % 0x1_0000_0000 % 16 == k % 16
    ensures (k % 0x1_0000_0000 + 1) % 0x1_0000_0000 == (k + 1) % 0x1_0000_0000
  {
    var q, r := k / 0x1_0000_0000, k % 0x1_0000_0000;
    Mod16(r / 16, r % 16);
    Mod16(0x1000_0000 * q + r / 16, r % 16);
    if r + 1 == 0x1_0000_0000 {
      Mod32(q + 1, 0);
    } else {
      Mod32(q, r + 1);
    }
  }

  lemma Mod16(q: int, r: int)
    requires 0 <= r < 16
    ensures (16 * q + r) % 16 == r
  {
  }

  lemma Mod32(q: int, r: int)
    requires 0 <= r < 0x1_0000_0000
    ensures (0x1_0000_0000 * q + r) % 0x1_0000_0000 == r
  {
  }

  lemma SlotsAreDistinct(k: nat, j: nat)
    requires j < k < j + 16
    ensures j % 16 != k % 16
  {
  }

  /** Every slot in use belongs to one of the remembered tokens. */
  lemma SlotOwner(c: Cache, accepted: seq<Entry>, i: nat) returns (j: nat)
    requires HoldsLast(c, accepted) && i < 16 && c.used[i]
    ensures OldestKept(accepted) <= j < |accepted| && j % 16 == i
  {
    var k := |accepted|;
    if k <= 16 {
      j := i;
    } else {
      var last, q := (k - 1) % 16, (k - 1) / 16;
      j := if i <= last then 16 * q + i else 16 * (q - 1) + i;
      Mod16(q, i);
      Mod16(q - 1, i);
    }
  }

  /** A hash is refused exactly when it is that of one of the last min(16, k) accepted tokens. */
  lemma SeenIsRecent(c: Cache, accepted: seq<Entry>, h: Digest)
    requires HoldsLast(c, accepted)
    ensures Seen(c, h) <==> exists j :: OldestKept(accepted) <= j < |accepted| && accepted[j].hash == h
  {
    if Seen(c, h) {
      var i :| 0 <= i < 16 && c.used[i] && c.hashes[i] == h;
      var j := SlotOwner(c, accepted, i);
      assert Sits(c, accepted, j);
    }
    if j :| OldestKept(accepted) <= j < |accepted| && accepted[j].hash == h {
      assert Sits(c, accepted, j);
    }
  }

  lemma StoreKeeps(c: Cache, accepted: seq<Entry>, t: Entry)
    requires HoldsLast(c, accepted) && !Seen(c, t.hash)
    ensures HoldsLast(Stored(c, t.hash, t.created), accepted + [t])
  {
    var k, after, c' := |accepted|, accepted + [t], Stored(c, t.hash, t.created);
    SlotSurvivesWrap(k);
    SeenIsRecent(c, accepted, t.hash);
    forall j | OldestKept(after) <= j < |after|
      ensures Sits(c', after, j)
    {
      if j < k {
        assert Sits(c, accepted, j);
        SlotsAreDistinct(k, j);
      }
    }
    forall i | 0 <= i < 16
      ensures c'.used[i] <==> i < |after|
    {
      if k < 16 { assert k % 16 == k; }
    }
  }

  /** From a zeroed cache, after any run of tokens. */
  lemma {:induction false} RunHoldsLast(tokens: seq<Entry>)
    ensures HoldsLast(RunAll(tokens).0, RunAll(tokens).1)
  {
    if tokens != [] {
      var (c, accepted) := RunAll(tokens[..|tokens| - 1]);
      var t := tokens[|tokens| - 1];
      RunHoldsLast(tokens[..|tokens| - 1]);
      if !Seen(c, t.hash) {
        StoreKeeps(c, accepted, t);
      }
    }
  }

  /** Over every run, a hash is refused if and only if it is that of one of the last sixteen accepted
      tokens: it stays refused until sixteen others have been accepted after it. */
  lemma RefusedUntilSixteenOthers(tokens: seq<Entry>, h: Digest, created: int)
    ensures var (c, accepted) := RunAll(tokens);
            !Admit(c, h, created).0 <==>
              exists j :: 0 <= j < |accepted| && |accepted| - j <= 16 && accepted[j].hash == h
  {
    var (c, accepted) := RunAll(tokens);
    RunHoldsLast(tokens);
    SeenIsRecent(c, accepted, h);
  }

  function UsedHashes(c: Cache): set<Digest>
    requires IsCache(c)
  {
    set i | 0 <= i < 16 && c.used[i] :: c.hashes[i]
  }

  function LastHashes(accepted: seq<Entry>): set<Digest> {
    set j | OldestKept(accepted) <= j < |accepted| :: accepted[j].hash
  }

  /** Over every run, the used slots hold exactly the hashes of the last min(16, k) accepted tokens,
      and these are pairwise distinct. */
  lemma UsedSlotsAreTheLastSixteen(tokens: seq<Entry>)
    ensures UsedHashes(RunAll(tokens).0) == LastHashes(RunAll(tokens).1)
    ensures var accepted := RunAll(tokens).1;
            forall i, j :: OldestKept(accepted) <= i < j < |accepted| ==> accepted[i].hash != accepted[j].hash
  {
    var (c, accepted) := RunAll(tokens);
    RunHoldsLast(tokens);
    forall h: Digest
      ensures h in UsedHashes(c) <==> h in LastHashes(accepted)
    {
      SeenIsRecent(c, accepted, h);
    }
  }

  // ----- which entry goes -----

  /** The entry overwritten by a new one is the oldest accepted of the sixteen. */
  lemma OverwritesTheOldestAccepted(tokens: seq<Entry>)
    requires |RunAll(tokens).1| >= 16
    ensures var (c, accepted) := RunAll(tokens);
            c.hashes[c.next % 16] == accepted[|accepted| - 16].hash &&
            c.created[c.next % 16] == accepted[|accepted| - 16].created
  {
    RunHoldsLast(tokens);
    OldestIsNext(RunAll(tokens).0, RunAll(tokens).1);
  }

  lemma OldestIsNext(c: Cache, accepted: seq<Entry>)
    requires HoldsLast(c, accepted) && |accepted| >= 16
    ensures c.hashes[c.next % 16] == accepted[|accepted| - 16].hash
    ensures c.created[c.next % 16] == accepted[|accepted| - 16].created
  {
    var k := |accepted|;
    SlotSurvivesWrap(k);
    Mod16(k / 16 - 1, k % 16);
    assert Sits(c, accepted, k - 16);
  }

  /** The header says the oldest-created entry is evicted. The entry that goes has the oldest Created
      time exactly when the oldest accepted of the sixteen does. */
  lemma EvictsOldestCreated(tokens: seq<Entry>)
    requires |RunAll(tokens).1| >= 16
    ensures var (c, accepted) := RunAll(tokens);
            var k := |accepted|;
            (forall i :: 0 <= i < 16 ==> c.created[c.next % 16] <= c.created[i]) <==>
            (forall j :: k - 16 <= j < k ==> accepted[k - 16].created <= accepted[j].created)
  {
    var (c, accepted) := RunAll(tokens);
    var k := |accepted|;
    RunHoldsLast(tokens);
    OverwritesTheOldestAccepted(tokens);
    if forall j :: k - 16 <= j < k ==> accepted[k - 16].created <= accepted[j].created {
      forall i | 0 <= i < 16
        ensures c.created[c.next % 16] <= c.created[i]
      {
        var j := SlotOwner(c, accepted, i);
        assert Sits(c, accepted, j);
      }
    } else {
      var j :| k - 16 <= j < k && accepted[k - 16].created > accepted[j].created;
      assert Sits(c, accepted, j);
      assert c.created[j % 16] < c.created[c.next % 16];
    }
  }

  /** Tokens with pairwise distinct hashes are all accepted. */
  lemma {:induction false} DistinctAreAccepted(tokens: seq<Entry>)
    requires forall i, j :: 0 <= i < j < |tokens| ==> tokens[i].hash != tokens[j].hash
    ensures RunAll(tokens).1 == tokens
  {
    if tokens != [] {
      var last := |tokens| - 1;
      DistinctAreAccepted(tokens[..last]);
      RunHoldsLast(tokens[..last]);
      SeenIsRecent(RunAll(tokens[..last]).0, tokens[..last], tokens[last].hash);
      assert tokens == tokens[..last] + [tokens[last]];
    }
  }

  /** It can be the newest that goes: after any sixteen tokens with distinct hashes, each created
      before the one presented ahead of it, the next one overwrites the entry created last of all. */
  lemma EvictsTheNewest(tokens: seq<Entry>)
    requires |tokens| == 16
    requires forall i, j :: 0 <= i < j < |tokens| ==> tokens[i].hash != tokens[j].hash
    requires forall i, j :: 0 <= i < j < |tokens| ==> tokens[i].created > tokens[j].created
    ensures var c := RunAll(tokens).0;
            c.next % 16 == 0 && c.created[0] == tokens[0].created &&
            forall i :: 0 < i < 16 ==> c.created[c.next % 16] > c.created[i]
  {
    DistinctAreAccepted(tokens);
    RunHoldsLast(tokens);
    HoldsAllSixteen(RunAll(tokens).0, tokens);
  }

  lemma HoldsAllSixteen(c: Cache, tokens: seq<Entry>)
    requires HoldsLast(c, tokens) && |tokens| == 16
    ensures c.next == 16
    ensures forall i :: 0 <= i < 16 ==> c.created[i] == tokens[i].created
  {
    forall i | 0 <= i < 16
      ensures c.created[i] == tokens[i].created
    {
      assert Sits(c, tokens, i);
    }
  }
}
