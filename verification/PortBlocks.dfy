/**
 Blocks of relay ports. An allocation goes past every block in the table, whose rows stay for
 good; the range is a setting, which can change between two allocations.
 */
module PortBlocks {
  import opened Util

  const STRIDE: int := 10
  /** Tenant #1 keeps RustDesk's default ports. */
  const DEFAULT_BLOCK_BASE: int := 21115

  datatype AllocationError = NoPortsLeft

  /** SELECT MAX(base_port) ... WHERE base_port >= base, over the rows in the order of their ids. */
  function MaxFrom(bases: seq<int>, base: int): (m: Option<int>)
    ensures m.None? ==> forall b | b in bases :: b < base
    ensures m.Some? ==> m.value in bases && m.value >= base && forall b | b in bases :: b <= m.value
  {
    if bases == [] then None
    else
      var before, b := MaxFrom(bases[..|bases| - 1], base), bases[|bases| - 1];
      assert forall x | x in bases :: x in bases[..|bases| - 1] || x == b;
      assert b in bases;
      if b >= base && (before.None? || b > before.value) then Some(b) else before
  }

  function NextBase(bases: seq<int>, base: int): int {
    var m := MaxFrom(bases, base);
    if m.None? then base else m.value + STRIDE
  }

  function Allocation(bases: seq<int>, base: int, top: int): Result<int, AllocationError> {
    var next := NextBase(bases, base);
    if next + 4 > top then Err(NoPortsLeft) else Ok(next)
  }

  function FreeBlocks(bases: seq<int>, base: int, top: int): nat {
    var next := NextBase(bases, base);
    if next + 4 > top then 0 else (top - 4 - next) / STRIDE + 1
  }

  // What a block means

  /** A relay's row, and the TCP ports its two servers listen on. */
  datatype Relay = Relay(hbbsPort: int, hbbrPort: int)

  function RelayOn(block: int): Relay {
    Relay(block + 1, block + 2)
  }

  function BlockOf(r: Relay): int {
    r.hbbsPort - 1
  }

  function Ports(r: Relay): set<int> {
    {r.hbbsPort - 1, r.hbbsPort, r.hbbsPort + 2, r.hbbrPort, r.hbbrPort + 2}
  }

  /** The helper's own check of a tenant relay's row. */
  predicate HelperAccepts(r: Relay, base: int, top: int) {
    var b := r.hbbsPort - 1;
    !(r.hbbrPort != r.hbbsPort + 1 || b < base || b + 4 > top)
  }

  /** A relay's ports are the five of its block, from which its row gives the block back. */
  lemma FivePorts(block: int, p: int)
    ensures p in Ports(RelayOn(block)) <==> block <= p <= block + 4
    ensures BlockOf(RelayOn(block)) == block
  {
  }

  lemma DisjointBlocks(a: int, b: int)
    ensures Ports(RelayOn(a)) !! Ports(RelayOn(b)) <==> b >= a + 5 || a >= b + 5
  {
  }

  /** The helper accepts a block's relay exactly when all five ports are in the range. */
  lemma HelperAcceptsExactly(block: int, base: int, top: int)
    ensures HelperAccepts(RelayOn(block), base, top) <==> forall p | p in Ports(RelayOn(block)) :: base <= p <= top
  {
    FivePorts(block, block);
    FivePorts(block, block + 4);
    forall p ensures p in Ports(RelayOn(block)) <==> block <= p <= block + 4 {
      FivePorts(block, p);
    }
  }

  // One allocation

  /** Under any settings, the new block was never handed out, and its relay passes the helper's check. */
  lemma NeverReused(bases: seq<int>, base: int, top: int)
    requires Allocation(bases, base, top).Ok?
    ensures Allocation(bases, base, top).value !in bases
    ensures HelperAccepts(RelayOn(Allocation(bases, base, top).value), base, top)
  {
  }

  /** Its ports meet those of an older block exactly when the base was raised into that block:
      no block at or above the base, and one less than five below it. */
  lemma OverlapsExactly(bases: seq<int>, base: int, top: int)
    requires Allocation(bases, base, top).Ok?
    ensures (exists b :: b in bases && !(Ports(RelayOn(b)) !! Ports(RelayOn(Allocation(bases, base, top).value))))
            <==> (MaxFrom(bases, base).None? && exists b :: b in bases && base - 5 < b)
  {
  }

  // Allocations in a row

  /** The table after n allocations with the same settings, or None if one of them fails. */
  function Allocated(bases: seq<int>, base: int, top: int, n: nat): Option<seq<int>> {
    if n == 0 then Some(bases)
    else
      var before := Allocated(bases, base, top, n - 1);
      if before.None? || Allocation(before.value, base, top).Err? then None
      else Some(before.value + [Allocation(before.value, base, top).value])
  }

  lemma OneLessFree(bases: seq<int>, base: int, top: int)
    requires Allocation(bases, base, top).Ok?
    ensures FreeBlocks(bases + [Allocation(bases, base, top).value], base, top) == FreeBlocks(bases, base, top) - 1
  {
  }

  /** free_blocks is the number of allocations that succeed before one fails. */
  lemma {:induction false} FreeIsExact(bases: seq<int>, base: int, top: int, n: nat)
    ensures Allocated(bases, base, top, n).Some? <==> n <= FreeBlocks(bases, base, top)
    ensures Allocated(bases, base, top, n).Some? ==>
              FreeBlocks(Allocated(bases, base, top, n).value, base, top) == FreeBlocks(bases, base, top) - n
    decreases n
  {
    if n > 0 {
      FreeIsExact(bases, base, top, n - 1);
      var before := Allocated(bases, base, top, n - 1);
      if before.Some? {
        assert Allocation(before.value, base, top).Err? <==> FreeBlocks(before.value, base, top) == 0;
        if Allocation(before.value, base, top).Ok? {
          OneLessFree(before.value, base, top);
        }
      }
    }
  }

  /** No two rows share a port. */
  predicate Apart(bases: seq<int>) {
    forall i, j | 0 <= i < j < |bases| :: Ports(RelayOn(bases[i])) !! Ports(RelayOn(bases[j]))
  }

  /** Tenant #1's row first, then blocks in the range, each a whole block past those before it. */
  predicate Spaced(bases: seq<int>, base: int, top: int) {
    && |bases| > 0 && bases[0] == DEFAULT_BLOCK_BASE
    && (forall i | 1 <= i < |bases| :: base <= bases[i] && bases[i] + 4 <= top)
    && (forall i, j | 0 <= i < j < |bases| :: bases[i] + 5 <= bases[j])
  }

  lemma SpacedGrows(bases: seq<int>, base: int, top: int)
    requires base > DEFAULT_BLOCK_BASE + 4 && Spaced(bases, base, top) && Allocation(bases, base, top).Ok?
    ensures Spaced(bases + [Allocation(bases, base, top).value], base, top)
  {
  }

  /** With fixed settings and a base past tenant #1's ports, every relay keeps its five ports
      to itself, in the range, however many are created. */
  lemma {:induction false} RelaysStayApart(base: int, top: int, n: nat)
    requires base > DEFAULT_BLOCK_BASE + 4 && Allocated([DEFAULT_BLOCK_BASE], base, top, n).Some?
    ensures var bases := Allocated([DEFAULT_BLOCK_BASE], base, top, n).value;
            && |bases| == n + 1 && bases[0] == DEFAULT_BLOCK_BASE && Apart(bases)
            && forall i | 1 <= i <= n :: HelperAccepts(RelayOn(bases[i]), base, top)
  {
    AllSpaced(base, top, n);
    var bases := Allocated([DEFAULT_BLOCK_BASE], base, top, n).value;
    forall i, j | 0 <= i < j < |bases| ensures Ports(RelayOn(bases[i])) !! Ports(RelayOn(bases[j])) {
      DisjointBlocks(bases[i], bases[j]);
    }
  }

  lemma {:induction false} AllSpaced(base: int, top: int, n: nat)
    requires base > DEFAULT_BLOCK_BASE + 4 && Allocated([DEFAULT_BLOCK_BASE], base, top, n).Some?
    ensures Spaced(Allocated([DEFAULT_BLOCK_BASE], base, top, n).value, base, top)
    ensures |Allocated([DEFAULT_BLOCK_BASE], base, top, n).value| == n + 1
    decreases n
  {
    if n > 0 {
      AllSpaced(base, top, n - 1);
      SpacedGrows(Allocated([DEFAULT_BLOCK_BASE], base, top, n - 1).value, base, top);
    }
  }

  /** And they come one after the other, ten ports apart, from the base on: the n-th is given out exactly if
      its five ports fit in the range. */
  lemma {:induction false} BlocksAreTens(base: int, top: int, n: nat)
    requires base > DEFAULT_BLOCK_BASE + 4
    ensures var after := Allocated([DEFAULT_BLOCK_BASE], base, top, n);
            && (after.Some? <==> n == 0 || base + 10 * (n - 1) + 4 <= top)
            && (after.Some? ==> |after.value| == n + 1 && after.value[0] == DEFAULT_BLOCK_BASE
                                && forall i | 1 <= i <= n :: after.value[i] == base + 10 * (i - 1))
    decreases n
  {
    if n > 0 {
      BlocksAreTens(base, top, n - 1);
      var before := Allocated([DEFAULT_BLOCK_BASE], base, top, n - 1);
      if before.Some? {
        MaxIsLast(before.value, base);
      }
    }
  }

  lemma MaxIsLast(bases: seq<int>, base: int)
    requires bases != [] && bases[0] < base && forall i | 1 <= i < |bases| :: bases[i] == base + 10 * (i - 1)
    ensures MaxFrom(bases, base) == if |bases| == 1 then None else Some(bases[|bases| - 1])
  {
    var m := MaxFrom(bases, base);
    if m.Some? {
      var i :| 0 <= i < |bases| && bases[i] == m.value;
    }
    if |bases| > 1 {
      assert bases[|bases| - 1] in bases;
    }
  }

  /** Raising the base by three puts the next relay on ports that an older one uses. */
  lemma RaisedBaseOverlaps()
    ensures var bases := [DEFAULT_BLOCK_BASE, 21200];
            && Allocation(bases, 21203, 21999) == Ok(21203)
            && !(Ports(RelayOn(21200)) !! Ports(RelayOn(21203)))
  {
  }

  /** The rows of relay_port_blocks; base_port is unique. */
  class BlockTable {
    var bases: seq<int>

    predicate Valid()
      reads this
    {
      forall i, j | 0 <= i < j < |bases| :: bases[i] != bases[j]
    }

    constructor ()
      ensures Valid() && bases == [DEFAULT_BLOCK_BASE]
    {
      bases := [DEFAULT_BLOCK_BASE];
    }

    method MaxBase(base: int) returns (m: Option<int>)
      ensures m == MaxFrom(bases, base)
    {
      m := None;
      var i := 0;
      while i < |bases|
        invariant 0 <= i <= |bases| && m == MaxFrom(bases[..i], base)
      {
        assert bases[..i + 1][..i] == bases[..i];
        if bases[i] >= base && (m.None? || bases[i] > m.value) {
          m := Some(bases[i]);
        }
        i := i + 1;
      }
      assert bases[..i] == bases;
    }

    /** Takes the next block of the range, or says that none is left. */
    method AllocateBlock(base: int, top: int) returns (r: Result<int, AllocationError>)
      requires Valid()
      modifies this
      ensures Valid() && r == Allocation(old(bases), base, top)
      ensures bases == if r.Ok? then old(bases) + [r.value] else old(bases)
    {
      var m := MaxBase(base);
      var next := if m.None? then base else m.value + STRIDE;
      if next + 4 > top {
        return Err(NoPortsLeft);
      }
      NeverReused(bases, base, top);
      bases := bases + [next];
      r := Ok(next);
    }

    method CountFree(base: int, top: int) returns (n: nat)
      ensures forall k: nat :: Allocated(bases, base, top, k).Some? <==> k <= n
    {
      var m := MaxBase(base);
      var next := if m.None? then base else m.value + STRIDE;
      n := if next + 4 > top then 0 else (top - 4 - next) / STRIDE + 1;
      forall k: nat ensures Allocated(bases, base, top, k).Some? <==> k <= n {
        FreeIsExact(bases, base, top, k);
      }
    }
  }
}
