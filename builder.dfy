/** The mutable side of ton-core: a cell builder that wrappers fill step by
    step, and a dictionary that a loop fills with `set`. Each operation is
    proved to perform the matching append of module Cells. */
module CellBuilder {
  import opened Bits
  import opened Outcomes
  import opened Cells
  import Utf8

  /** What a builder operation promises, given the append it stands for: on
      success the builder holds the appended cell; on failure the error is
      the append's. After a failure ton-core may have written part of the
      field, so nothing is promised about the contents then; every caller
      abandons the builder. */
  ghost predicate Steps(before: Cell, step: Result<Cell>, res: Outcome, after: Cell)
  {
    if step.Success? then res == Pass && after == step.value else res == Fail(step.error)
  }

  class Builder {
    var bits: seq<bool>
    var refs: seq<Cell>

    ghost predicate Valid()
      reads this
    {
      |bits| <= MaxBits && |refs| <= MaxRefs
    }

    function Contents(): Cell
      reads this
    {
      Cell(bits, refs)
    }

    /** beginCell(). */
    constructor ()
      ensures Valid() && Contents() == Empty
    {
      bits := [];
      refs := [];
    }

    /** endCell(): the cell, which is within both limits. */
    method EndCell() returns (c: Cell)
      requires Valid()
      ensures c == Contents()
      ensures |c.bits| <= MaxBits && |c.refs| <= MaxRefs
    {
      c := Cell(bits, refs);
    }

    method StoreUint(v: int, n: nat) returns (res: Outcome)
      requires Valid()
      modifies this
      ensures Valid()
      ensures Steps(old(Contents()), AppendUint(old(Contents()), v, n), res, Contents())
    {
      if !(0 <= v < Pow2(n)) {
        return Fail(RangeError);
      }
      if |bits| + n > MaxBits {
        return Fail(CapacityError);
      }
      bits := bits + UintBits(v, n);
      return Pass;
    }

    method StoreInt(v: int, n: nat) returns (res: Outcome)
      requires Valid() && n >= 1
      modifies this
      ensures Valid()
      ensures Steps(old(Contents()), AppendInt(old(Contents()), v, n), res, Contents())
    {
      if !IntFits(v, n) {
        return Fail(RangeError);
      }
      if |bits| + n > MaxBits {
        return Fail(CapacityError);
      }
      bits := bits + IntBits(v, n);
      return Pass;
    }

    method StoreBit(b: bool) returns (res: Outcome)
      requires Valid()
      modifies this
      ensures Valid()
      ensures Steps(old(Contents()), AppendBit(old(Contents()), b), res, Contents())
    {
      if |bits| + 1 > MaxBits {
        return Fail(CapacityError);
      }
      bits := bits + [b];
      return Pass;
    }

    method StoreBuffer(src: seq<byte>) returns (res: Outcome)
      requires Valid()
      modifies this
      ensures Valid()
      ensures Steps(old(Contents()), AppendBytes(old(Contents()), src), res, Contents())
    {
      if |bits| + 8 * |src| > MaxBits {
        return Fail(CapacityError);
      }
      bits := bits + BytesBits(src);
      return Pass;
    }

    /** storeCoins: a 4-bit byte count, then the amount in that many bytes. */
    method StoreCoins(v: int) returns (res: Outcome)
      requires Valid()
      modifies this
      ensures Valid()
      ensures Steps(old(Contents()), AppendCoins(old(Contents()), v), res, Contents())
    {
      if v < 0 {
        return Fail(RangeError);
      }
      if v == 0 {
        res := StoreUint(0, 4);
        return;
      }
      var size := ByteLen(v);
      ByteLenBounds(v);
      res := StoreUint(size, 4);
      if res.Fail? {
        return;
      }
      res := StoreUint(v, 8 * size);
    }

    /** storeAddress of an internal address. */
    method StoreAddress(a: Address) returns (res: Outcome)
      requires Valid()
      modifies this
      ensures Valid()
      ensures Steps(old(Contents()), AppendAddress(old(Contents()), a), res, Contents())
    {
      res := StoreUint(2, 2);
      if res.Fail? {
        return;
      }
      res := StoreUint(0, 1);
      if res.Fail? {
        return;
      }
      res := StoreInt(a.workchain, 8);
      if res.Fail? {
        return;
      }
      res := StoreBuffer(a.hash);
    }

    method StoreRef(child: Cell) returns (res: Outcome)
      requires Valid()
      modifies this
      ensures Valid()
      ensures Steps(old(Contents()), AppendRef(old(Contents()), child), res, Contents())
    {
      if |refs| >= MaxRefs {
        return Fail(CapacityError);
      }
      refs := refs + [child];
      return Pass;
    }

    /** storeDict: the keys are serialised at the dictionary's key width
        first; then the presence bit, and the root reference when there are
        entries. */
    method StoreDict<V>(d: Dictionary<V>, root: map<int, V> -> Cell) returns (res: Outcome)
      requires Valid()
      modifies this
      ensures Valid()
      ensures Steps(old(Contents()), AppendUintDict(old(Contents()), d.keyBits, d.entries, root), res, Contents())
    {
      if |d.entries| == 0 {
        res := StoreBit(false);
        return;
      }
      if !KeysFit(d.entries, d.keyBits) {
        return Fail(RangeError);
      }
      res := StoreBit(true);
      if res.Fail? {
        return;
      }
      res := StoreRef(root(d.entries));
    }

    /** storeStringTail: the UTF-8 bytes of the text, as a snake. */
    method StoreStringTail(s: string) returns (res: Outcome)
      requires Valid()
      modifies this
      ensures Valid()
      ensures Steps(old(Contents()), AppendStringTail(old(Contents()), s), res, Contents())
    {
      res := WriteBufferTail(this, Utf8.Encode(s));
    }
  }

  /** ton-core writeBuffer: fill the builder with whole bytes, and when the
      bytes do not fit, write the rest into a fresh builder the same way and
      store that as a reference. */
  method WriteBufferTail(b: Builder, src: seq<byte>) returns (res: Outcome)
    requires b.Valid()
    modifies b
    ensures b.Valid()
    ensures Steps(old(b.Contents()), AppendBufferTail(old(b.Contents()), src), res, b.Contents())
    decreases |src|, if FreeBytes(|b.bits|) == 0 then 1 else 0
  {
    if |src| == 0 {
      return Pass;
    }
    var room := FreeBytes(|b.bits|);
    if |src| > room {
      res := b.StoreBuffer(src[..room]);
      if res.Fail? {
        return;
      }
      var bb := new Builder();
      res := WriteBufferTail(bb, src[room..]);
      if res.Fail? {
        return;
      }
      var tail := bb.EndCell();
      res := b.StoreRef(tail);
    } else {
      res := b.StoreBuffer(src);
    }
  }

  /** Number.MAX_SAFE_INTEGER. */
  const MaxSafeInteger: int := Pow2(53) - 1

  /** Number.isSafeInteger, for an integer. */
  predicate SafeInteger(k: int)
  {
    -MaxSafeInteger <= k <= MaxSafeInteger
  }

  /** A non-negative safe integer fits a 64-bit key. */
  lemma SafeIntegerFits64(k: int)
    requires SafeInteger(k) && 0 <= k
    ensures k < Pow2(64)
  {
    Pow2Monotone(53, 64);
  }

  /** Dictionary.empty(Keys.Uint(keyBits), ...) and its `set`. */
  class Dictionary<V> {
    const keyBits: nat
    var entries: map<int, V>

    constructor Empty(keyBits: nat)
      ensures this.keyBits == keyBits && entries == map[]
    {
      this.keyBits := keyBits;
      entries := map[];
    }

    /** set: the key serialiser of Keys.Uint only demands a safe integer;
        the key width is checked when the dictionary is stored. An existing
        entry for the key is replaced. */
    method Set(key: int, value: V) returns (res: Outcome)
      modifies this
      ensures res == if SafeInteger(key) then Pass else Fail(UnsafeKey)
      ensures entries == if res.Pass? then old(entries)[key := value] else old(entries)
    {
      if !SafeInteger(key) {
        return Fail(UnsafeKey);
      }
      entries := entries[key := value];
      return Pass;
    }
  }
}
