/** The hash-chained ledger. `H` is any hash to text without the separator; collisions are returned, not assumed away. */
module AuditChain {
  import opened Text
  import opened Timestamps

  const FS: char := 31 as char

  function Genesis(): string { seq(64, i => '0') }

  datatype Block = Block(
    index: int,
    prevHash: string,
    currentHash: string,
    payload: string,
    payloadHash: string,
    createdAt: Utc,
    eventName: string,
    actor: string,
    caseId: Option<string>)

  predicate Clean(s: string) { forall i :: 0 <= i < |s| ==> s[i] != FS }

  /** Digests are hexadecimal text. */
  ghost predicate Digests(H: string -> string) { forall s :: Clean(H(s)) }

  function Iso(t: Utc): string { ToDbIso(Aware(t)).value }

  function Material(prev: string, payload: string, index: nat, at: Utc): string {
    prev + [FS] + payload + [FS] + Decimal(index) + [FS] + Iso(at)
  }

  function PrevOf(blocks: seq<Block>, i: nat): string
    requires i <= |blocks|
  {
    if i == 0 then Genesis() else blocks[i - 1].currentHash
  }

  datatype Fault = OutOfPlace | PayloadEdited | LinkBroken | HashStale

  /** What is wrong with one block, in the order the verifier looks. */
  function FaultAt(blocks: seq<Block>, i: nat, H: string -> string): Option<Fault>
    requires i < |blocks|
  {
    var b := blocks[i];
    if b.index != i then Some(OutOfPlace)
    else if H(b.payload) != b.payloadHash then Some(PayloadEdited)
    else if b.prevHash != PrevOf(blocks, i) then Some(LinkBroken)
    else if H(Material(b.prevHash, b.payload, i, b.createdAt)) != b.currentHash then Some(HashStale)
    else None
  }

  /** A chain begins at sixty-four zeros, and what is hashed is the four fields joined by the unit separator. */
  lemma WhatIsHashed(prev: string, payload: string, index: nat, at: Utc)
    ensures |Genesis()| == 64 && forall i :: 0 <= i < 64 ==> Genesis()[i] == '0'
    ensures FS as int == 31
    ensures Material(prev, payload, index, at) == prev + [FS] + payload + [FS] + Decimal(index) + [FS] + ToDbIso(Aware(at)).value
  {
  }

  /** A block is sound exactly if it is in its place, carries its payload's hash, follows the block before and is hashed as it stands; else the first of these that fails is named. */
  lemma FaultsExactly(blocks: seq<Block>, i: nat, H: string -> string)
    requires i < |blocks|
    ensures var b, fault := blocks[i], FaultAt(blocks, i, H);
            var inPlace, payloadOk := b.index == i, b.payloadHash == H(b.payload);
            var linked := b.prevHash == if i == 0 then Genesis() else blocks[i - 1].currentHash;
            && (fault.None? <==> inPlace && payloadOk && linked && b.currentHash == H(Material(b.prevHash, b.payload, i, b.createdAt)))
            && (fault == Some(OutOfPlace) <==> !inPlace)
            && (fault == Some(PayloadEdited) <==> inPlace && !payloadOk)
            && (fault == Some(LinkBroken) <==> inPlace && payloadOk && !linked)
            && (fault == Some(HashStale) <==> inPlace && payloadOk && linked && fault.Some?)
  {
    hide Material, Genesis;
  }

  predicate Sound(blocks: seq<Block>, H: string -> string) {
    forall i :: 0 <= i < |blocks| ==> FaultAt(blocks, i, H).None?
  }

  predicate Dated(blocks: seq<Block>) { forall i :: 0 <= i < |blocks| ==> Valid(blocks[i].createdAt) }

  datatype Verification = Verification(valid: bool, count: nat, divergence: Option<int>, fault: Option<Fault>, head: Option<string>)

  /** Everything is recomputed; what is reported is the first block that fails and what fails first in it. */
  method VerifyBlocks(blocks: seq<Block>, H: string -> string) returns (v: Verification)
    ensures v.valid <==> Sound(blocks, H)
    ensures v.count == |blocks|
    ensures v.valid ==> v.fault.None? && v.divergence.None? && v.head == if blocks == [] then None else Some(PrevOf(blocks, |blocks|))
    ensures !v.valid ==>
      && v.divergence.Some? && 0 <= v.divergence.value < |blocks|
      && v.fault.Some? && v.fault == FaultAt(blocks, v.divergence.value, H)
      && forall j :: 0 <= j < v.divergence.value ==> FaultAt(blocks, j, H).None?
  {
    hide Material;
    if blocks == [] {
      return Verification(true, 0, None, None, None);
    }
    var prev := Genesis();
    for i := 0 to |blocks|
      invariant prev == PrevOf(blocks, i)
      invariant forall j :: 0 <= j < i ==> FaultAt(blocks, j, H).None?
    {
      var b := blocks[i];
      if b.index != i {
        assert FaultAt(blocks, i, H) == Some(OutOfPlace);
        return Verification(false, |blocks|, Some(i), Some(OutOfPlace), None);
      }
      if H(b.payload) != b.payloadHash {
        assert FaultAt(blocks, i, H) == Some(PayloadEdited);
        return Verification(false, |blocks|, Some(b.index), Some(PayloadEdited), None);
      }
      if b.prevHash != prev {
        assert FaultAt(blocks, i, H) == Some(LinkBroken);
        return Verification(false, |blocks|, Some(b.index), Some(LinkBroken), None);
      }
      if H(Material(b.prevHash, b.payload, b.index, b.createdAt)) != b.currentHash {
        assert FaultAt(blocks, i, H) == Some(HashStale);
        return Verification(false, |blocks|, Some(b.index), Some(HashStale), None);
      }
      prev := b.currentHash;
    }
    return Verification(true, |blocks|, None, None, Some(prev));
  }

  // --------------------------------------------------------------------------
  // The join is unambiguous.

  /** The part before the first separator is fixed by the whole. */
  lemma FirstPart(a: string, x: string, b: string, y: string)
    requires Clean(a) && Clean(b) && a + [FS] + x == b + [FS] + y
    ensures a == b && x == y
  {
    var s, t := a + [FS] + x, b + [FS] + y;
    assert s[|a|] == FS && t[|b|] == FS;
    assert forall i :: 0 <= i < |a| ==> s[i] == a[i];
    assert forall i :: 0 <= i < |b| ==> t[i] == b[i];
    assert |a| == |b|;
    assert s[..|a|] == a && t[..|b|] == b;
    assert s[|a| + 1..] == x && t[|b| + 1..] == y;
  }

  /** The part after the last separator is fixed by the whole. */
  lemma LastPart(x: string, a: string, y: string, b: string)
    requires Clean(a) && Clean(b) && x + [FS] + a == y + [FS] + b
    ensures a == b && x == y
  {
    var s, t := x + [FS] + a, y + [FS] + b;
    assert s[|x|] == FS && t[|y|] == FS;
    assert forall i :: |x| < i < |s| ==> s[i] == a[i - |x| - 1];
    assert forall i :: |y| < i < |t| ==> t[i] == b[i - |y| - 1];
    assert |x| == |y|;
    assert s[..|x|] == x && t[..|y|] == y;
    assert s[|x| + 1..] == a && t[|y| + 1..] == b;
  }

  lemma IsoIsClean(t: Utc)
    requires Valid(t)
    ensures Clean(Iso(t))
  {
  }

  /** Different contents are never joined to the same text, whatever the payload holds. */
  lemma MaterialIsUnambiguous(p1: string, c1: string, n1: nat, t1: Utc, p2: string, c2: string, n2: nat, t2: Utc)
    requires Clean(p1) && Clean(p2) && Valid(t1) && Valid(t2)
    ensures Material(p1, c1, n1, t1) == Material(p2, c2, n2, t2) <==>
              p1 == p2 && c1 == c2 && n1 == n2 && ToMillisecond(t1) == ToMillisecond(t2)
  {
    IsoIsClean(t1);
    IsoIsClean(t2);
    assert Clean(Decimal(n1)) && Clean(Decimal(n2));
    StoredInstantRoundTrips(t1);
    StoredInstantRoundTrips(t2);
    hide ToDbIso, FromDbIso, Decimal;
    if Material(p1, c1, n1, t1) == Material(p2, c2, n2, t2) {
      LastPart(p1 + [FS] + c1 + [FS] + Decimal(n1), Iso(t1), p2 + [FS] + c2 + [FS] + Decimal(n2), Iso(t2));
      LastPart(p1 + [FS] + c1, Decimal(n1), p2 + [FS] + c2, Decimal(n2));
      FirstPart(p1, c1, p2, c2);
      DecimalInjective(n1, n2);
    }
  }

  // --------------------------------------------------------------------------
  // What a matching head proves.

  /** Equal in everything that is hashed. */
  predicate SameRecord(a: Block, b: Block) {
    && a.index == b.index && a.prevHash == b.prevHash && a.currentHash == b.currentHash
    && a.payload == b.payload && a.payloadHash == b.payloadHash
    && ToMillisecond(a.createdAt) == ToMillisecond(b.createdAt)
  }

  /** Cutting the tail is not found: every prefix verifies, and only a head recorded elsewhere can tell. */
  lemma {:induction false} EveryPrefixVerifies(blocks: seq<Block>, n: nat, H: string -> string)
    requires Sound(blocks, H) && n <= |blocks|
    ensures Sound(blocks[..n], H)
  {
    forall i | 0 <= i < n ensures FaultAt(blocks[..n], i, H).None? {
      assert FaultAt(blocks[..n], i, H) == FaultAt(blocks, i, H);
    }
  }

  lemma PrevIsClean(blocks: seq<Block>, i: nat, H: string -> string)
    requires Sound(blocks, H) && Digests(H) && i <= |blocks|
    ensures Clean(PrevOf(blocks, i))
  {
    if i > 0 {
      var b := blocks[i - 1];
      assert FaultAt(blocks, i - 1, H).None?;
      assert Clean(H(Material(b.prevHash, b.payload, i - 1, b.createdAt)));
    }
  }

  function MaterialAt(blocks: seq<Block>, i: nat): string
    requires i < |blocks|
  {
    Material(blocks[i].prevHash, blocks[i].payload, i, blocks[i].createdAt)
  }

  /** Two sound blocks made of the same text under the same hash record the same, behind the same head. */
  lemma SameMaterialSameRecord(a: seq<Block>, b: seq<Block>, n: nat, H: string -> string)
    requires Digests(H) && Sound(a, H) && Sound(b, H) && Dated(a) && Dated(b) && n < |a| && n < |b|
    requires MaterialAt(a, n) == MaterialAt(b, n)
    ensures SameRecord(a[n], b[n]) && PrevOf(a, n) == PrevOf(b, n)
  {
    assert FaultAt(a, n, H).None? && FaultAt(b, n, H).None?;
    PrevIsClean(a, n, H);
    PrevIsClean(b, n, H);
    hide Material, Clean;
    MaterialIsUnambiguous(a[n].prevHash, a[n].payload, n, a[n].createdAt, b[n].prevHash, b[n].payload, n, b[n].createdAt);
  }

  lemma HeadIsHash(a: seq<Block>, n: nat, H: string -> string)
    requires Sound(a, H) && n < |a|
    ensures PrevOf(a, n + 1) == H(MaterialAt(a, n))
  {
    assert FaultAt(a, n, H).None?;
  }

  /**
   Two verifying chains of one length and one head record the same things block by block, or the
   two texts returned are different and hash alike.
   */
  lemma {:induction false} SameHeadSameHistory(a: seq<Block>, b: seq<Block>, H: string -> string) returns (m1: string, m2: string)
    requires Digests(H) && Sound(a, H) && Sound(b, H) && Dated(a) && Dated(b)
    requires |a| == |b| && PrevOf(a, |a|) == PrevOf(b, |b|)
    ensures (m1 != m2 && H(m1) == H(m2)) || forall i :: 0 <= i < |a| ==> SameRecord(a[i], b[i])
  {
    hide Digests, Sound, MaterialAt, SameRecord;
    m1, m2 := "", "";
    if a != [] {
      var n := |a| - 1;
      HeadIsHash(a, n, H);
      HeadIsHash(b, n, H);
      m1, m2 := MaterialAt(a, n), MaterialAt(b, n);
      if m1 == m2 {
        SameMaterialSameRecord(a, b, n, H);
        EveryPrefixVerifies(a, n, H);
        EveryPrefixVerifies(b, n, H);
        assert PrevOf(a[..n], n) == PrevOf(a, n) && PrevOf(b[..n], n) == PrevOf(b, n);
        m1, m2 := SameHeadSameHistory(a[..n], b[..n], H);
        if m1 == m2 || H(m1) != H(m2) {
          forall i | 0 <= i < |a| ensures SameRecord(a[i], b[i]) {
            if i < n {
              assert SameRecord(a[..n][i], b[..n][i]);
            }
          }
        }
      }
    }
  }

  /** Removing a block that is not the last is found at its place. */
  lemma DeletionIsFound(blocks: seq<Block>, k: nat, H: string -> string)
    requires Sound(blocks, H) && k < |blocks| - 1
    ensures var cut := blocks[..k] + blocks[k + 1..];
            && FaultAt(cut, k, H) == Some(OutOfPlace)
            && forall j :: 0 <= j < k ==> FaultAt(cut, j, H).None?
  {
    var cut := blocks[..k] + blocks[k + 1..];
    assert cut[k] == blocks[k + 1] && FaultAt(blocks, k + 1, H).None?;
    forall j | 0 <= j < k ensures FaultAt(cut, j, H).None? {
      assert FaultAt(cut, j, H) == FaultAt(blocks, j, H);
    }
  }

  /** Any rearrangement that leaves a block away from its place is found at the first such place. */
  lemma ReorderIsFound(blocks: seq<Block>, other: seq<Block>, i: nat, j: nat, H: string -> string)
    requires Sound(blocks, H) && i < |other| && i < |blocks| && j < |blocks| && i != j && other[i] == blocks[j]
    requires other[..i] == blocks[..i]
    ensures FaultAt(other, i, H) == Some(OutOfPlace)
    ensures forall k :: 0 <= k < i ==> FaultAt(other, k, H).None?
  {
    assert FaultAt(blocks, j, H).None?;
    forall k | 0 <= k < i ensures FaultAt(other, k, H).None? {
      assert other[..i][k] == blocks[..i][k];
      assert k > 0 ==> other[..i][k - 1] == blocks[..i][k - 1];
      assert FaultAt(blocks, k, H).None?;
    }
  }

  function Relabelled(b: Block, name: string, actor: string, caseId: Option<string>): Block {
    b.(eventName := name, actor := actor, caseId := caseId)
  }

  /** The name, the actor and the case of a block are not covered: the verdict on every block stays. */
  lemma LabelsAreNotCovered(blocks: seq<Block>, k: nat, name: string, actor: string, caseId: Option<string>,
                            i: nat, H: string -> string)
    requires k < |blocks| && i < |blocks|
    ensures FaultAt(blocks[k := Relabelled(blocks[k], name, actor, caseId)], i, H) == FaultAt(blocks, i, H)
  {
  }

  function Reload(b: Block): Block { b.(createdAt := ToMillisecond(b.createdAt)) }

  /** The chain as the database gives it back. */
  function Reloaded(blocks: seq<Block>): (r: seq<Block>)
    ensures |r| == |blocks|
    ensures forall i :: 0 <= i < |r| ==> r[i] == Reload(blocks[i])
  {
    seq(|blocks|, i requires 0 <= i < |blocks| => Reload(blocks[i]))
  }

  /** A chain hashed in memory verifies, block by block, exactly as it does read back from the database. */
  lemma ReloadingChangesNoVerdict(blocks: seq<Block>, i: nat, H: string -> string)
    requires Dated(blocks) && i < |blocks|
    ensures FaultAt(Reloaded(blocks), i, H) == FaultAt(blocks, i, H)
  {
    StoredInstantRoundTrips(blocks[i].createdAt);
    hide ToDbIso, FromDbIso;
    assert Iso(ToMillisecond(blocks[i].createdAt)) == Iso(blocks[i].createdAt);
  }

  // --------------------------------------------------------------------------
  // Appending.

  /** The block a caller's event becomes behind the present head. */
  function NextBlock(blocks: seq<Block>, name: string, actor: string, payload: string, caseId: Option<string>, now: Utc,
                     H: string -> string): Block
    requires blocks != [] ==> blocks[|blocks| - 1].index >= -1
  {
    var index := if blocks == [] then 0 else blocks[|blocks| - 1].index + 1;
    var prev := PrevOf(blocks, |blocks|);
    Block(index, prev, H(Material(prev, payload, index, now)), payload, H(payload), now, name, actor, caseId)
  }

  class AuditLedger {
    /** The table, in the order of its unique block index. */
    var blocks: seq<Block>

    /** CHECK(block_index >= 0) */
    predicate Indexed()
      reads this
    {
      forall i :: 0 <= i < |blocks| ==> blocks[i].index >= 0
    }

    constructor ()
      ensures blocks == [] && Indexed()
    {
      blocks := [];
    }

    /** One block more, linked to the head; an intact ledger stays intact and a broken one stays broken where it was. */
    method Append(name: string, actor: string, payload: string, caseId: Option<string>, now: Utc, H: string -> string)
      returns (b: Block)
      requires Indexed()
      modifies this
      ensures Indexed() && b == NextBlock(old(blocks), name, actor, payload, caseId, now, H)
      ensures blocks == old(blocks) + [b]
      ensures Sound(old(blocks), H) ==> Sound(blocks, H)
      ensures forall i :: 0 <= i < |old(blocks)| ==> FaultAt(blocks, i, H) == FaultAt(old(blocks), i, H)
    {
      var index, prev := 0, Genesis();
      if blocks != [] {
        var head := blocks[|blocks| - 1];
        index, prev := head.index + 1, head.currentHash;
      }
      b := Block(index, prev, H(Material(prev, payload, index, now)), payload, H(payload), now, name, actor, caseId);
      ghost var before := blocks;
      blocks := blocks + [b];
      AppendKeeps(before, b, H);
      if Sound(before, H) && before != [] {
        assert FaultAt(before, |before| - 1, H).None?;
      }
    }
  }

  lemma AppendKeeps(blocks: seq<Block>, b: Block, H: string -> string)
    ensures forall i :: 0 <= i < |blocks| ==> FaultAt(blocks + [b], i, H) == FaultAt(blocks, i, H)
  {
  }
}
