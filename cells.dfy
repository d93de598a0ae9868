/** TON cells as values, the appends a ton-core builder performs on them
    (each one checked for range and capacity), and a slice reader that
    parses them back, as a contract's deserialiser would. */
module Cells {
  import opened Bits
  import opened Outcomes
  import Utf8

  /** The hard limits of one cell. */
  const MaxBits: nat := 1023
  const MaxRefs: nat := 4

  datatype Cell = Cell(bits: seq<bool>, refs: seq<Cell>)

  /** `beginCell().endCell()`. */
  const Empty: Cell := Cell([], [])

  /** A cell and every cell below it keeps within the limits. */
  predicate WellFormed(c: Cell)
    decreases c
  {
    && |c.bits| <= MaxBits
    && |c.refs| <= MaxRefs
    && forall i :: 0 <= i < |c.refs| ==> WellFormed(c.refs[i])
  }

  /** A standard internal address: workchain and 256-bit account id. */
  datatype StdAddress = StdAddress(workchain: int, hash: seq<byte>)

  /** ton-core's Address constructor rejects any hash that is not 32 bytes. */
  type Address = a: StdAddress | |a.hash| == 32 witness StdAddress(0, seq(32, _ => 0))

  // ---------------------------------------------------------------------
  // Encodings of single fields

  /** VarUInteger 16 ("Grams"): a 4-bit byte count, then that many bytes. */
  function CoinsBits(v: nat): (r: seq<bool>)
    ensures |r| == 4 + 8 * ByteLen(v)
  {
    UintBits(ByteLen(v), 4) + UintBits(v, 8 * ByteLen(v))
  }

  /** addr_std$10 anycast:(Maybe Anycast) workchain_id:int8 address:bits256,
      with no anycast. */
  function AddressBits(a: Address): (r: seq<bool>)
    requires IntFits(a.workchain, 8)
    ensures |r| == 267
  {
    [true, false] + [false] + IntBits(a.workchain, 8) + BytesBits(a.hash)
  }

  /** Proof plumbing: the address tag constants, spelled out. It is its own
      lemma, since evaluating a constant encoding inside a larger proof is
      costly. */
  lemma AddressTagBits()
    ensures UintBits(2, 2) == [true, false] && UintBits(0, 1) == [false]
    ensures UintBits(4, 3) == [true, false, false]
  {
  }

  lemma ZeroBits()
    ensures UintBits(0, 2) == [false, false]
    ensures CoinsBits(0) == UintBits(0, 4) == [false, false, false, false]
  {
  }

  // ---------------------------------------------------------------------
  // The builder's appends, on the cell built so far

  /** storeUint: the value must be in [0, 2^n), then the n bits must fit. */
  function AppendUint(c: Cell, v: int, n: nat): (r: Result<Cell>)
    ensures r.Success? <==> 0 <= v < Pow2(n) && |c.bits| + n <= MaxBits
    ensures !(0 <= v < Pow2(n)) ==> r == Failure(RangeError)
    ensures r.Success? ==> r.value == Cell(c.bits + UintBits(v, n), c.refs)
  {
    if !(0 <= v < Pow2(n)) then Failure(RangeError)
    else if |c.bits| + n > MaxBits then Failure(CapacityError)
    else Success(Cell(c.bits + UintBits(v, n), c.refs))
  }

  /** storeInt: two's complement in n >= 1 bits. */
  function AppendInt(c: Cell, v: int, n: nat): (r: Result<Cell>)
    requires n >= 1
    ensures r.Success? <==> IntFits(v, n) && |c.bits| + n <= MaxBits
    ensures !IntFits(v, n) ==> r == Failure(RangeError)
    ensures r.Success? ==> r.value == Cell(c.bits + IntBits(v, n), c.refs)
  {
    if !IntFits(v, n) then Failure(RangeError)
    else if |c.bits| + n > MaxBits then Failure(CapacityError)
    else Success(Cell(c.bits + IntBits(v, n), c.refs))
  }

  /** storeBit. */
  function AppendBit(c: Cell, b: bool): (r: Result<Cell>)
    ensures r.Success? <==> |c.bits| < MaxBits
    ensures r.Success? ==> r.value == Cell(c.bits + [b], c.refs)
  {
    if |c.bits| + 1 > MaxBits then Failure(CapacityError) else Success(Cell(c.bits + [b], c.refs))
  }

  /** storeBuffer: the bytes as they are, 8 bits each; no spill into a reference. */
  function AppendBytes(c: Cell, src: seq<byte>): (r: Result<Cell>)
    ensures r.Success? <==> |c.bits| + 8 * |src| <= MaxBits
    ensures r.Success? ==> r.value == Cell(c.bits + BytesBits(src), c.refs)
  {
    if |c.bits| + 8 * |src| > MaxBits then Failure(CapacityError)
    else Success(Cell(c.bits + BytesBits(src), c.refs))
  }

  /** storeCoins (writeVarUint with a 4-bit length): zero is the 4-bit 0;
      otherwise the shortest byte count, then the value in that many bytes.
      A negative amount, or one of 16 or more bytes, is a range error. */
  function AppendCoins(c: Cell, v: int): (r: Result<Cell>)
    ensures r.Success? <==> 0 <= v < Pow2(120) && |c.bits| + |CoinsBits(v)| <= MaxBits
    ensures !(0 <= v < Pow2(120)) ==> r == Failure(RangeError)
    ensures r.Success? ==> r.value == Cell(c.bits + CoinsBits(v), c.refs)
  {
    if v < 0 then Failure(RangeError)
    else if v == 0 then
      ZeroBits();
      AppendUint(c, 0, 4)
    else
      CoinsLengthFits(v);
      ByteLenBounds(v);
      var size := ByteLen(v);
      var c1 :- AppendUint(c, size, 4);
      Assoc3(c.bits, UintBits(size, 4), UintBits(v, 8 * size));
      AppendUint(c1, v, 8 * size)
  }

  /** storeAddress for an internal address: tag 10, no anycast, the
      workchain as int8, then the 32 hash bytes. */
  function AppendAddress(c: Cell, a: Address): (r: Result<Cell>)
    ensures r.Success? <==> IntFits(a.workchain, 8) && |c.bits| + 267 <= MaxBits
    ensures r.Success? ==> r.value == Cell(c.bits + AddressBits(a), c.refs)
  {
    var c1 :- AppendUint(c, 2, 2);
    var c2 :- AppendUint(c1, 0, 1);
    var c3 :- AppendInt(c2, a.workchain, 8);
    AddressTagBits();
    Assoc5(c.bits, [true, false], [false], IntBits(a.workchain, 8), BytesBits(a.hash));
    AppendBytes(c3, a.hash)
  }

  /** storeRef: at most four references. */
  function AppendRef(c: Cell, child: Cell): (r: Result<Cell>)
    ensures r.Success? <==> |c.refs| < MaxRefs
    ensures r.Success? ==> r.value == Cell(c.bits, c.refs + [child])
  {
    if |c.refs| >= MaxRefs then Failure(CapacityError) else Success(Cell(c.bits, c.refs + [child]))
  }

  /** storeDict: a 0 bit for an empty dictionary; otherwise a 1 bit and a
      reference to the dictionary's root cell, which `root` stands for. */
  function AppendDict<K, V>(c: Cell, entries: map<K, V>, root: map<K, V> -> Cell): (r: Result<Cell>)
    ensures r.Success? <==> |c.bits| < MaxBits && (|entries| == 0 || |c.refs| < MaxRefs)
    ensures r.Success? ==> r.value == DictField(c, entries, root)
  {
    if |entries| == 0 then AppendBit(c, false)
    else
      var c1 :- AppendBit(c, true);
      AppendRef(c1, root(entries))
  }

  /** Every key of the dictionary fits an unsigned key of `keyBits` bits. */
  predicate KeysFit<V>(entries: map<int, V>, keyBits: nat)
  {
    forall k :: k in entries ==> 0 <= k < Pow2(keyBits)
  }

  /** storeDict of a dictionary with `Keys.Uint(keyBits)` keys: the keys
      are serialised at the key width first, a key that does not fit being
      a range error; then the field AppendDict writes. */
  function AppendUintDict<V>(c: Cell, keyBits: nat, entries: map<int, V>, root: map<int, V> -> Cell)
    : (r: Result<Cell>)
    ensures r.Success? <==> AppendDict(c, entries, root).Success? && KeysFit(entries, keyBits)
    ensures !KeysFit(entries, keyBits) ==> r == Failure(RangeError)
    ensures r.Success? ==> r.value == DictField(c, entries, root)
  {
    if |entries| == 0 then AppendBit(c, false)
    else if !KeysFit(entries, keyBits) then Failure(RangeError)
    else AppendDict(c, entries, root)
  }

  /** The cell after a successful storeDict, written out. */
  function DictField<K, V>(c: Cell, entries: map<K, V>, root: map<K, V> -> Cell): Cell
  {
    if |entries| == 0 then Cell(c.bits + [false], c.refs)
    else Cell(c.bits + [true], c.refs + [root(entries)])
  }

  /** The whole bytes still free in a cell with `used` bits. */
  function FreeBytes(used: nat): nat
  {
    if used >= MaxBits then 0 else (MaxBits - used) / 8
  }

  /** storeStringTail / writeBuffer: as many whole bytes as still fit go
      into this cell; the rest goes, the same way, into a fresh cell
      stored as the next reference ("snake" layout). */
  function AppendBufferTail(c: Cell, src: seq<byte>): (r: Result<Cell>)
    ensures |c.bits| <= MaxBits ==> (r.Success? <==> |src| <= FreeBytes(|c.bits|) || |c.refs| < MaxRefs)
    decreases |src|, if FreeBytes(|c.bits|) == 0 then 1 else 0
  {
    if |src| == 0 then Success(c)
    else
      var room := FreeBytes(|c.bits|);
      if |src| > room then
        var head :- AppendBytes(c, src[..room]);
        // The rest goes into a fresh cell, where it always fits.
        var tail := AppendBufferTail(Empty, src[room..]).value;
        AppendRef(head, tail)
      else AppendBytes(c, src)
  }

  /** storeStringTail: the UTF-8 bytes of the text, in the snake layout.
      Into a fresh cell it never fails, and the snake reads back as bytes
      that decode to the text. */
  function AppendStringTail(c: Cell, s: string): (r: Result<Cell>)
    ensures c == Empty ==> r.Success? && WellFormed(r.value)
    ensures c == Empty ==> ReadSnake(r.value).Some? && Utf8.Decode(ReadSnake(r.value).value) == Some(s)
  {
    if c == Empty then
      SnakeRoundTrip(Utf8.Encode(s));
      Utf8.DecodeEncode(s);
      AppendBufferTail(c, Utf8.Encode(s))
    else AppendBufferTail(c, Utf8.Encode(s))
  }

  // ---------------------------------------------------------------------
  // Reading cells back

  datatype Slice = Slice(bits: seq<bool>, refs: seq<Cell>)

  function BeginParse(c: Cell): Slice
  {
    Slice(c.bits, c.refs)
  }

  /** endParse: nothing is left unread. */
  predicate Exhausted(s: Slice)
  {
    s.bits == [] && s.refs == []
  }

  function LoadUint(s: Slice, n: nat): Option<(nat, Slice)>
  {
    if |s.bits| < n then None else Some((BitsToNat(s.bits[..n]), Slice(s.bits[n..], s.refs)))
  }

  function LoadInt(s: Slice, n: nat): Option<(int, Slice)>
    requires n >= 1
  {
    if |s.bits| < n then None else Some((BitsToInt(s.bits[..n]), Slice(s.bits[n..], s.refs)))
  }

  function LoadBytes(s: Slice, k: nat): Option<(seq<byte>, Slice)>
  {
    if |s.bits| < 8 * k then None
    else Some((BitsToBytes(s.bits[..8 * k]), Slice(s.bits[8 * k..], s.refs)))
  }

  function LoadCoins(s: Slice): Option<(nat, Slice)>
  {
    match LoadUint(s, 4)
    case None => None
    case Some((size, s1)) => LoadUint(s1, 8 * size)
  }

  /** Reads an addr_std without anycast; any other tag is not an address here. */
  function LoadAddress(s: Slice): Option<(Address, Slice)>
  {
    match LoadUint(s, 3)
    case None => None
    case Some((tag, s1)) =>
      if tag != 4 then None
      else match LoadInt(s1, 8)
        case None => None
        case Some((wc, s2)) =>
          match LoadBytes(s2, 32)
          case None => None
          case Some((hash, s3)) => Some((StdAddress(wc, hash), s3))
  }

  function LoadRef(s: Slice): Option<(Cell, Slice)>
  {
    if |s.refs| == 0 then None else Some((s.refs[0], Slice(s.bits, s.refs[1..])))
  }

  /** loadMaybeRef, which is how a dictionary field is read: a bit, and a
      reference when the bit is 1. */
  function LoadMaybeRef(s: Slice): Option<(Option<Cell>, Slice)>
  {
    if |s.bits| == 0 then None
    else if !s.bits[0] then Some((None, Slice(s.bits[1..], s.refs)))
    else if |s.refs| == 0 then None
    else Some((Some(s.refs[0]), Slice(s.bits[1..], s.refs[1..])))
  }

  /** Reads a snake: the whole bytes of this cell, then those of its one
      reference, and so on (ton-core readString). */
  function ReadSnake(c: Cell): Option<seq<byte>>
    decreases c
  {
    if |c.bits| % 8 != 0 || |c.refs| > 1 then None
    else
      var here := BitsToBytes(c.bits);
      if |c.refs| == 0 then Some(here)
      else match ReadSnake(c.refs[0])
        case None => None
        case Some(rest) => Some(here + rest)
  }

  // ---------------------------------------------------------------------
  // Each reader undoes the matching writer

  lemma LoadUintOf(v: nat, n: nat, rest: seq<bool>, refs: seq<Cell>)
    requires v < Pow2(n)
    ensures LoadUint(Slice(UintBits(v, n) + rest, refs), n) == Some((v, Slice(rest, refs)))
  {
    var bits := UintBits(v, n) + rest;
    assert bits[..n] == UintBits(v, n);
    assert bits[n..] == rest;
    UintBitsRoundTrip(v, n);
  }

  lemma LoadRefOf(c: Cell, bits: seq<bool>, refs: seq<Cell>)
    ensures LoadRef(Slice(bits, [c] + refs)) == Some((c, Slice(bits, refs)))
  {
    assert ([c] + refs)[1..] == refs;
  }

  lemma LoadMaybeRefOf(present: bool, root: Cell, rest: seq<bool>, refs: seq<Cell>)
    ensures LoadMaybeRef(Slice([present] + rest, if present then [root] + refs else refs))
            == Some((if present then Some(root) else None, Slice(rest, refs)))
  {
    assert ([present] + rest)[1..] == rest;
    assert ([root] + refs)[1..] == refs;
  }

  lemma LoadIntOf(v: int, n: nat, rest: seq<bool>, refs: seq<Cell>)
    requires IntFits(v, n)
    ensures LoadInt(Slice(IntBits(v, n) + rest, refs), n) == Some((v, Slice(rest, refs)))
  {
    var bits := IntBits(v, n) + rest;
    assert bits[..n] == IntBits(v, n);
    assert bits[n..] == rest;
    IntBitsRoundTrip(v, n);
  }

  lemma LoadBytesOf(bs: seq<byte>, rest: seq<bool>, refs: seq<Cell>)
    ensures LoadBytes(Slice(BytesBits(bs) + rest, refs), |bs|) == Some((bs, Slice(rest, refs)))
  {
    var bits := BytesBits(bs) + rest;
    assert bits[..8 * |bs|] == BytesBits(bs);
    assert bits[8 * |bs|..] == rest;
    BytesRoundTrip(bs);
  }

  lemma LoadCoinsOf(v: nat, rest: seq<bool>, refs: seq<Cell>)
    requires v < Pow2(120)
    ensures LoadCoins(Slice(CoinsBits(v) + rest, refs)) == Some((v, Slice(rest, refs)))
  {
    CoinsLengthFits(v);
    ByteLenBounds(v);
    var k := ByteLen(v);
    assert CoinsBits(v) + rest == UintBits(k, 4) + (UintBits(v, 8 * k) + rest);
    LoadUintOf(k, 4, UintBits(v, 8 * k) + rest, refs);
    LoadUintOf(v, 8 * k, rest, refs);
  }

  lemma LoadAddressOf(a: Address, rest: seq<bool>, refs: seq<Cell>)
    requires IntFits(a.workchain, 8)
    ensures LoadAddress(Slice(AddressBits(a) + rest, refs)) == Some((a, Slice(rest, refs)))
  {
    var tail := BytesBits(a.hash) + rest;
    var mid := IntBits(a.workchain, 8) + tail;
    AddressTagBits();
    assert AddressBits(a) + rest == UintBits(4, 3) + mid;
    LoadUintOf(4, 3, mid, refs);
    LoadIntOf(a.workchain, 8, tail, refs);
    LoadBytesOf(a.hash, rest, refs);
  }

  /** The address encoding is injective. */
  lemma AddressBitsInjective(a: Address, b: Address)
    requires IntFits(a.workchain, 8) && IntFits(b.workchain, 8)
    requires AddressBits(a) == AddressBits(b)
    ensures a == b
  {
    LoadAddressOf(a, [], []);
    LoadAddressOf(b, [], []);
    assert AddressBits(a) + [] == AddressBits(b) + [];
  }

  /** A text stored with storeStringTail into a fresh cell always fits (the
      chain grows as needed), every cell of the chain is within the limits,
      and reading the snake back gives exactly the bytes. */
  lemma {:induction false} SnakeRoundTrip(src: seq<byte>)
    ensures AppendBufferTail(Empty, src).Success?
    ensures WellFormed(AppendBufferTail(Empty, src).value)
    ensures ReadSnake(AppendBufferTail(Empty, src).value) == Some(src)
    decreases |src|
  {
    BytesRoundTrip(src);
    if |src| > 127 {
      assert FreeBytes(0) == 127;
      var now := src[..127];
      SnakeRoundTrip(src[127..]);
      var tail := AppendBufferTail(Empty, src[127..]).value;
      var r := AppendBufferTail(Empty, src).value;
      assert r == Cell(BytesBits(now), [tail]);
      BytesRoundTrip(now);
      assert now + src[127..] == src;
    } else {
      ShortTailIsFlat(src);
    }
  }

  /** Up to 127 bytes, storeStringTail into a fresh cell is just the bytes, with no reference. */
  lemma ShortTailIsFlat(src: seq<byte>)
    requires |src| <= 127
    ensures AppendBufferTail(Empty, src) == Success(Cell(BytesBits(src), []))
  {
    assert FreeBytes(0) == 127;
    assert [] + BytesBits(src) == BytesBits(src);
  }
}
