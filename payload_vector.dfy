/** `Payload_Vector`: a table of `n + 1` offsets into one byte array, so that
    payload `k` is the bytes between offsets `k` and `k + 1`; its builder
    `make`, its iterator, and the parser `from` of the serialised form
    `[length][offsets][payloads]`. Offsets are `size_t` (eight bytes, read
    little-endian); the decoding of a payload's bytes into a view is not
    modelled, a payload is its bytes. */
module PayloadVectors {

  /** `std::byte`. */
  type byte = x: int | 0 <= x < 256

  type Bytes = seq<byte>

  /** `size_t` arithmetic wraps modulo 2^64; `sizeof(size_type)` is 8,
      written out as a literal below so that the arithmetic stays linear. */
  const SizeTypeModulus: nat := 0x1_0000_0000_0000_0000

  datatype Error =
    | OutOfRange          // `operator[]`: index past the offset table
    | OffsetTooLarge      // `operator[]`: offset at or past the payload bytes
    | CannotUnpack        // `unpack_head`: the span is shorter than the fields
    | CannotCast          // `cast_span`: the span is not a whole number of elements
    | CannotSplit         // `split`: the cut is past the end of the span
    | LengthParse(inner: Error)       // `from`: reading the length failed
    | OffsetTableParse(inner: Error)  // `from`: splitting off the offsets failed

  datatype Result<T> = Success(value: T) | Failure(error: Error)

  // ---------------------------------------------------------------------
  // The layout: payloads laid end to end, and the running offsets.

  /** The payloads one after another. */
  function Flatten(pieces: seq<Bytes>): Bytes
  {
    if pieces == [] then [] else Flatten(pieces[..|pieces| - 1]) + pieces[|pieces| - 1]
  }

  /** The offset table `make` builds: 0, then the byte count after each
      payload. */
  function Offsets(pieces: seq<Bytes>): (r: seq<nat>)
    ensures |r| == |pieces| + 1
  {
    if pieces == [] then [0] else Offsets(pieces[..|pieces| - 1]) + [|Flatten(pieces)|]
  }

  /** The encodings of the inputs, in order. */
  function Encodings<T>(inputs: seq<T>, encode: T -> Bytes): (r: seq<Bytes>)
    ensures |r| == |inputs| && forall i :: 0 <= i < |inputs| ==> r[i] == encode(inputs[i])
  {
    seq(|inputs|, i requires 0 <= i < |inputs| => encode(inputs[i]))
  }

  ghost predicate NonDecreasing(s: seq<nat>) {
    forall i, j :: 0 <= i <= j < |s| ==> s[i] <= s[j]
  }

  /** `Payload_Vector_Buffer`: the offset table and the payload bytes. */
  datatype Buffer = Buffer(offsets: seq<nat>, payloads: Bytes)

  /** `Payload_Vector_Buffer::make`: encode each input onto the end of the
      payload bytes and record the new byte count as the next offset. */
  method Make<T>(inputs: seq<T>, encode: T -> Bytes) returns (b: Buffer)
    ensures b.offsets == Offsets(Encodings(inputs, encode))
    ensures b.payloads == Flatten(Encodings(inputs, encode))
  {
    ghost var pieces := Encodings(inputs, encode);
    var offsets: seq<nat> := [0];
    var payloads: Bytes := [];
    var i := 0;
    while i < |inputs|
      invariant i <= |inputs|
      invariant offsets == Offsets(pieces[..i])
      invariant payloads == Flatten(pieces[..i])
    {
      assert pieces[..i + 1][..i] == pieces[..i];
      assert pieces[..i + 1] == pieces[..i] + [encode(inputs[i])];
      payloads := payloads + encode(inputs[i]);
      offsets := offsets + [|payloads|];
      i := i + 1;
    }
    assert pieces[..i] == pieces;
    b := Buffer(offsets, payloads);
  }

  /** The default `encode_payload_vector`: each string's characters become
      its bytes, one for one (a C++ `char` is one byte, so a string is given
      here as its bytes). */
  method EncodePayloadVector(values: seq<Bytes>) returns (b: Buffer)
    ensures b.offsets == Offsets(values) && b.payloads == Flatten(values)
  {
    b := Make(values, (s: Bytes) => s);
    assert Encodings(values, (s: Bytes) => s) == values;
  }

  /** Offset `k` is the length of the first `k` payloads. */
  lemma {:induction false} OffsetsArePrefixLengths(pieces: seq<Bytes>)
    ensures |Offsets(pieces)| == |pieces| + 1
    ensures forall k :: 0 <= k <= |pieces| ==> Offsets(pieces)[k] == |Flatten(pieces[..k])|
    decreases |pieces|
  {
    if pieces != [] {
      var n := |pieces|;
      OffsetsArePrefixLengths(pieces[..n - 1]);
      forall k | 0 <= k <= n ensures Offsets(pieces)[k] == |Flatten(pieces[..k])| {
        if k < n {
          assert pieces[..k] == pieces[..n - 1][..k];
        } else {
          assert pieces[..k] == pieces;
        }
      }
    }
  }

  /** The payloads up to `k` are a prefix of all of them. */
  lemma {:induction false} FlattenPrefix(pieces: seq<Bytes>, k: nat)
    requires k <= |pieces|
    ensures |Flatten(pieces[..k])| <= |Flatten(pieces)|
    ensures Flatten(pieces)[..|Flatten(pieces[..k])|] == Flatten(pieces[..k])
    decreases |pieces|
  {
    if k < |pieces| {
      var n := |pieces|;
      assert pieces[..n - 1][..k] == pieces[..k];
      FlattenPrefix(pieces[..n - 1], k);
    } else {
      assert pieces[..k] == pieces;
    }
  }

  /** What `make` guarantees of its table: `n + 1` offsets from 0 to the
      payload size, never decreasing. */
  lemma MakeShape(pieces: seq<Bytes>)
    ensures Offsets(pieces)[0] == 0
    ensures Offsets(pieces)[|pieces|] == |Flatten(pieces)|
    ensures NonDecreasing(Offsets(pieces))
  {
    var offs := Offsets(pieces);
    OffsetsArePrefixLengths(pieces);
    assert pieces[..0] == [] && pieces[..|pieces|] == pieces;
    forall i, j | 0 <= i <= j < |offs| ensures offs[i] <= offs[j] {
      FlattenPrefix(pieces[..j], i);
      assert pieces[..j][..i] == pieces[..i];
    }
  }

  /** Between offsets `i` and `i + 1` lie exactly the bytes the encoder
      produced for input `i`. */
  lemma MakeSlices(pieces: seq<Bytes>)
    ensures forall i {:trigger pieces[i]} :: 0 <= i < |pieces| ==>
      Offsets(pieces)[i] <= Offsets(pieces)[i + 1] <= |Flatten(pieces)| &&
      Offsets(pieces)[i + 1] - Offsets(pieces)[i] == |pieces[i]| &&
      Flatten(pieces)[Offsets(pieces)[i]..Offsets(pieces)[i + 1]] == pieces[i]
  {
    OffsetsArePrefixLengths(pieces);
    forall i {:trigger pieces[i]} | 0 <= i < |pieces|
      ensures Offsets(pieces)[i] <= Offsets(pieces)[i + 1] <= |Flatten(pieces)|
      ensures Offsets(pieces)[i + 1] - Offsets(pieces)[i] == |pieces[i]|
      ensures Flatten(pieces)[Offsets(pieces)[i]..Offsets(pieces)[i + 1]] == pieces[i]
    {
      MakeSlice(pieces, i);
    }
  }

  lemma MakeSlice(pieces: seq<Bytes>, i: nat)
    requires i < |pieces|
    requires forall k :: 0 <= k <= |pieces| ==> Offsets(pieces)[k] == |Flatten(pieces[..k])|
    ensures Offsets(pieces)[i] <= Offsets(pieces)[i + 1] <= |Flatten(pieces)|
    ensures Offsets(pieces)[i + 1] - Offsets(pieces)[i] == |pieces[i]|
    ensures Flatten(pieces)[Offsets(pieces)[i]..Offsets(pieces)[i + 1]] == pieces[i]
  {
    var all := Flatten(pieces);
    assert pieces[..i + 1][..i] == pieces[..i];
    var before, upto := Flatten(pieces[..i]), Flatten(pieces[..i + 1]);
    assert upto == before + pieces[i];
    FlattenPrefix(pieces, i + 1);
    assert all[..|upto|] == upto;
    assert all[|before|..|upto|] == upto[|before|..];
  }

  // ---------------------------------------------------------------------
  // The vector.

  /** `Payload_Vector`: views of an offset table and of the payload bytes. */
  datatype PayloadVector = PayloadVector(offsets: seq<nat>, payloads: Bytes) {

    /** The shape `make` produces: offsets from 0 to the payload size,
        never decreasing. */
    ghost predicate Valid() {
      |offsets| >= 1 && offsets[0] == 0 && NonDecreasing(offsets) &&
      offsets[|offsets| - 1] == |payloads|
    }

    /** `size()`: one less than the number of offsets, in `size_t`. */
    function Size(): (n: nat)
      ensures n < SizeTypeModulus || |offsets| > SizeTypeModulus
      ensures |offsets| >= 1 ==> n + 1 == |offsets|
      ensures |offsets| == 0 ==> n == SizeTypeModulus - 1
    {
      if |offsets| == 0 then SizeTypeModulus - 1 else |offsets| - 1
    }

    /** Payload `k`: the bytes between offsets `k` and `k + 1`. */
    function Payload(k: nat): (p: Bytes)
      requires Valid() && k + 1 < |offsets|
      ensures |p| == offsets[k + 1] - offsets[k]
    {
      payloads[offsets[k]..offsets[k + 1]]
    }

    /** `operator[]`: an index past the offset table is out of range; an
        offset at or past the end of the payload bytes is refused; otherwise
        the payload at `begin() + idx`. */
    function Index(idx: nat): (r: Result<Bytes>)
      requires Valid()
      ensures r == Failure(OutOfRange) <==> idx >= |offsets|
      ensures r == Failure(OffsetTooLarge) <==> idx < |offsets| && offsets[idx] >= |payloads|
      ensures r.Success? <==> idx < |offsets| && offsets[idx] < |payloads|
      ensures r.Success? ==> idx < Size() && r.value == Payload(idx)
    {
      if idx >= |offsets| then Failure(OutOfRange)
      else if offsets[idx] >= |payloads| then Failure(OffsetTooLarge)
      else Success(Payload(idx))
    }

    /** `begin()`: both iterators at the start. */
    method Begin() returns (it: PayloadVectorIterator)
      requires Valid()
      ensures fresh(it) && it.Valid() && it.offsets == offsets
      ensures it.offsetPos == 0 && it.payloadPos == 0
    {
      it := new PayloadVectorIterator(offsets, 0, 0);
    }

    /** `end()`: the last offset and the end of the payload bytes. */
    method End() returns (it: PayloadVectorIterator)
      requires Valid()
      ensures fresh(it) && it.Valid() && it.offsets == offsets
      ensures it.offsetPos == Size() && it.payloadPos == |payloads|
    {
      it := new PayloadVectorIterator(offsets, |offsets| - 1, |payloads|);
    }

    /** `operator[]` as the source computes it, through `*(begin() + idx)`. */
    method Subscript(idx: nat) returns (r: Result<Bytes>)
      requires Valid()
      ensures r == Index(idx)
    {
      if idx >= |offsets| {
        return Failure(OutOfRange);
      }
      if offsets[idx] >= |payloads| {
        return Failure(OffsetTooLarge);
      }
      var b := Begin();
      var it := b.Plus(idx);
      r := Success(it.Deref(payloads));
    }
  }

  /** `size()` counts the payloads `make` encoded. */
  lemma MadeVectorSize(pieces: seq<Bytes>)
    ensures PayloadVector(Offsets(pieces), Flatten(pieces)).Valid()
    ensures PayloadVector(Offsets(pieces), Flatten(pieces)).Size() == |pieces|
  {
    MakeShape(pieces);
  }

  /** On a vector `make` built, `v[i]` is the `i`-th encoding whenever it is
      accepted, and it is accepted exactly when something is stored at or
      after offset `i`. */
  lemma IndexOfMade(pieces: seq<Bytes>, i: nat)
    ensures PayloadVector(Offsets(pieces), Flatten(pieces)).Valid()
    ensures PayloadVector(Offsets(pieces), Flatten(pieces)).Index(i).Success? <==>
            i < |pieces| && Offsets(pieces)[i] < |Flatten(pieces)|
    ensures PayloadVector(Offsets(pieces), Flatten(pieces)).Index(i).Success? ==>
            PayloadVector(Offsets(pieces), Flatten(pieces)).Index(i).value == pieces[i]
  {
    MakeShape(pieces);
    MakeSlices(pieces);
    if i < |pieces| {
      assert pieces[i] == pieces[i];
    }
  }

  /** `v[size()]` is refused, and so is a trailing empty payload. */
  lemma IndexRefusesEnd(v: PayloadVector)
    requires v.Valid()
    ensures v.Index(v.Size()).Failure?
    ensures v.Size() > 0 && v.Payload(v.Size() - 1) == [] ==> v.Index(v.Size() - 1).Failure?
  {
  }

  // ---------------------------------------------------------------------
  // The iterator.

  /** `Payload_Vector_Iterator`: a position in the offset table and the
      matching position in the payload bytes (relative to their start). */
  class PayloadVectorIterator {
    const offsets: seq<nat>
    var offsetPos: nat
    var payloadPos: int

    /** The two positions are in step: the payload position is the offset
        here minus the first offset. */
    ghost predicate Valid()
      reads this
    {
      offsetPos < |offsets| && payloadPos == offsets[offsetPos] as int - offsets[0]
    }

    constructor (offsets: seq<nat>, offsetPos: nat, payloadPos: int)
      ensures this.offsets == offsets && this.offsetPos == offsetPos && this.payloadPos == payloadPos
    {
      this.offsets := offsets;
      this.offsetPos := offsetPos;
      this.payloadPos := payloadPos;
    }

    /** `++it`: one offset forward, and the payload position by the size of
        the payload passed over. */
    method Increment()
      requires Valid() && offsetPos + 1 < |offsets|
      modifies this
      ensures Valid() && offsetPos == old(offsetPos) + 1
      ensures payloadPos == old(payloadPos) + offsets[offsetPos] - offsets[offsetPos - 1]
    {
      offsetPos := offsetPos + 1;
      payloadPos := payloadPos + (offsets[offsetPos] as int - offsets[offsetPos - 1]);
    }

    /** `it++`: a copy of the old position, then `++it`. */
    method PostIncrement() returns (previous: PayloadVectorIterator)
      requires Valid() && offsetPos + 1 < |offsets|
      modifies this
      ensures fresh(previous) && previous.Valid() && previous.offsets == offsets
      ensures previous.offsetPos == old(offsetPos) && previous.payloadPos == old(payloadPos)
      ensures Valid() && offsetPos == old(offsetPos) + 1
    {
      previous := new PayloadVectorIterator(offsets, offsetPos, payloadPos);
      Increment();
    }

    /** `it + n`: a new iterator `n` offsets on, its payload position moved
        by the bytes in between. */
    method Plus(n: nat) returns (it: PayloadVectorIterator)
      requires Valid() && offsetPos + n < |offsets|
      ensures fresh(it) && it.Valid() && it.offsets == offsets
      ensures it.offsetPos == offsetPos + n
      ensures it.Difference(this) == n
    {
      it := new PayloadVectorIterator(offsets, offsetPos + n,
                                      payloadPos + (offsets[offsetPos + n] as int - offsets[offsetPos]));
    }

    /** `it += n`: the payload position first, then the offset position. */
    method AdvanceBy(n: nat)
      requires Valid() && offsetPos + n < |offsets|
      modifies this
      ensures Valid() && offsetPos == old(offsetPos) + n
    {
      payloadPos := payloadPos + (offsets[offsetPos + n] as int - offsets[offsetPos]);
      offsetPos := offsetPos + n;
    }

    /** `it - n`: a new iterator `n` offsets back. */
    method Minus(n: nat) returns (it: PayloadVectorIterator)
      requires Valid() && n <= offsetPos
      ensures fresh(it) && it.Valid() && it.offsets == offsets
      ensures it.offsetPos == offsetPos - n
      ensures Difference(it) == n
    {
      it := new PayloadVectorIterator(offsets, offsetPos - n,
                                      payloadPos - (offsets[offsetPos] as int - offsets[offsetPos - n]));
    }

    /** `it -= n`: becomes `it - n`. */
    method RetreatBy(n: nat)
      requires Valid() && n <= offsetPos
      modifies this
      ensures Valid() && offsetPos == old(offsetPos) - n
    {
      var back := Minus(n);
      offsetPos, payloadPos := back.offsetPos, back.payloadPos;
    }

    /** `--it`: `it -= 1`. */
    method Decrement()
      requires Valid() && 1 <= offsetPos
      modifies this
      ensures Valid() && offsetPos == old(offsetPos) - 1
    {
      RetreatBy(1);
    }

    /** `it--`: a copy of the old position, then `--it`. */
    method PostDecrement() returns (previous: PayloadVectorIterator)
      requires Valid() && 1 <= offsetPos
      modifies this
      ensures fresh(previous) && previous.Valid() && previous.offsets == offsets
      ensures previous.offsetPos == old(offsetPos) && previous.payloadPos == old(payloadPos)
      ensures Valid() && offsetPos == old(offsetPos) - 1
    {
      previous := new PayloadVectorIterator(offsets, offsetPos, payloadPos);
      Decrement();
    }

    /** `it - other`: the distance in offsets only. */
    function Difference(other: PayloadVectorIterator): int
      reads this, other
    {
      offsetPos - other.offsetPos
    }

    /** `==`: compares the offset positions only. */
    predicate Equals(other: PayloadVectorIterator)
      reads this, other
    {
      offsetPos == other.offsetPos
    }

    /** `*it`: the bytes from the payload position up to the next offset. */
    function Deref(payloads: Bytes): (p: Bytes)
      reads this
      requires Valid() && offsetPos + 1 < |offsets|
      requires 0 <= payloadPos <= payloadPos + (offsets[offsetPos + 1] as int - offsets[offsetPos]) <= |payloads|
      ensures |p| == offsets[offsetPos + 1] - offsets[offsetPos]
      ensures p == payloads[offsets[offsetPos] - offsets[0]..offsets[offsetPos + 1] - offsets[0]]
    {
      payloads[payloadPos..payloadPos + (offsets[offsetPos + 1] as int - offsets[offsetPos])]
    }
  }

  /** Comparing offset positions alone is enough: two in-step iterators
      over the same table that are `==` also agree on the payload position,
      and their difference is zero exactly when they are `==`. */
  lemma EqualIteratorsAgree(a: PayloadVectorIterator, b: PayloadVectorIterator)
    requires a.Valid() && b.Valid() && a.offsets == b.offsets
    ensures a.Equals(b) ==> a.payloadPos == b.payloadPos
    ensures a.Equals(b) <==> a.Difference(b) == 0
  {
  }

  // ---------------------------------------------------------------------
  // Parsing the serialised form.

  /** A little-endian unsigned integer. */
  function LittleEndian(b: Bytes): nat
  {
    if b == [] then 0 else b[0] as nat + 256 * LittleEndian(b[1..])
  }

  /** The `k` little-endian bytes of `n`. */
  function LittleEndianBytes(n: nat, k: nat): (b: Bytes)
    ensures |b| == k
  {
    if k == 0 then [] else [n % 256] + LittleEndianBytes(n / 256, k - 1)
  }

  function Pow256(k: nat): (p: nat)
    ensures p >= 1
  {
    if k == 0 then 1 else 256 * Pow256(k - 1)
  }

  lemma {:induction false} LittleEndianRoundTrip(n: nat, k: nat)
    requires n < Pow256(k)
    ensures LittleEndian(LittleEndianBytes(n, k)) == n
    decreases k
  {
    if k > 0 {
      LittleEndianRoundTrip(n / 256, k - 1);
      assert LittleEndianBytes(n, k)[1..] == LittleEndianBytes(n / 256, k - 1);
    }
  }

  lemma {:induction false} LittleEndianBound(b: Bytes)
    ensures LittleEndian(b) < Pow256(|b|)
    decreases |b|
  {
    if b != [] {
      LittleEndianBound(b[1..]);
    }
  }

  function Sum(sizes: seq<nat>): nat
  {
    if sizes == [] then 0 else sizes[0] + Sum(sizes[1..])
  }

  /** The fields laid out one after another from the start of `mem`. */
  function Fields(mem: Bytes, sizes: seq<nat>): (fs: seq<Bytes>)
    requires Sum(sizes) <= |mem|
    ensures |fs| == |sizes| && forall i :: 0 <= i < |sizes| ==> |fs[i]| == sizes[i]
    ensures Flatten(fs) == mem[..Sum(sizes)]
    decreases |sizes|
  {
    if sizes == [] then []
    else
      var rest := Fields(mem[sizes[0]..], sizes[1..]);
      FlattenCons(mem[..sizes[0]], rest);
      [mem[..sizes[0]]] + rest
  }

  lemma {:induction false} FlattenCons(head: Bytes, rest: seq<Bytes>)
    ensures Flatten([head] + rest) == head + Flatten(rest)
    decreases |rest|
  {
    if rest != [] {
      var n := |rest|;
      assert ([head] + rest)[..n] == [head] + rest[..n - 1];
      FlattenCons(head, rest[..n - 1]);
    }
  }

  /** `unpack_head<T...>(mem)`: the fields of sizes `sizes` from the front of
      `mem`, and the rest. It fails exactly when the fields do not fit. */
  function UnpackHead(mem: Bytes, sizes: seq<nat>): (r: Result<(seq<Bytes>, Bytes)>)
    ensures r.Failure? <==> Sum(sizes) > |mem|
    ensures r.Failure? ==> r.error == CannotUnpack
    ensures r.Success? ==>
      |r.value.0| == |sizes| &&
      (forall i :: 0 <= i < |sizes| ==> |r.value.0[i]| == sizes[i]) &&
      |r.value.1| == |mem| - Sum(sizes) &&
      Flatten(r.value.0) + r.value.1 == mem
  {
    if Sum(sizes) > |mem| then Failure(CannotUnpack)
    else
      assert mem[..Sum(sizes)] + mem[Sum(sizes)..] == mem;
      Success((Fields(mem, sizes), mem[Sum(sizes)..]))
  }

  /** `split(mem, offset)`: the first `offset` bytes and the rest; a cut
      past the end fails. */
  function Split(mem: Bytes, offset: nat): (r: Result<(Bytes, Bytes)>)
    ensures r.Failure? <==> offset > |mem|
    ensures r.Failure? ==> r.error == CannotSplit
    ensures r.Success? ==> |r.value.0| == offset && r.value.0 + r.value.1 == mem
  {
    if offset > |mem| then Failure(CannotSplit)
    else
      assert mem[..offset] + mem[offset..] == mem;
      Success((mem[..offset], mem[offset..]))
  }

  /** The consecutive `size_t`-sized elements of `mem`. */
  function Chunks(mem: Bytes): (cs: seq<Bytes>)
    requires |mem| % 8 == 0
    ensures |cs| == |mem| / 8 && forall i :: 0 <= i < |cs| ==> |cs[i]| == 8
    ensures Flatten(cs) == mem
    decreases |mem|
  {
    if mem == [] then []
    else
      var rest := Chunks(mem[8..]);
      FlattenCons(mem[..8], rest);
      assert mem[..8] + mem[8..] == mem;
      [mem[..8]] + rest
  }

  /** `cast_span<size_type>(mem)`: it fails unless the length is a multiple
      of `sizeof(size_type)`, and otherwise gives `length / 8` elements
      covering `mem`. */
  function CastSpan(mem: Bytes): (r: Result<seq<Bytes>>)
    ensures r.Failure? <==> |mem| % 8 != 0
    ensures r.Failure? ==> r.error == CannotCast
    ensures r.Success? ==>
      |r.value| == |mem| / 8 &&
      (forall i :: 0 <= i < |r.value| ==> |r.value[i]| == 8) &&
      Flatten(r.value) == mem
  {
    if |mem| % 8 != 0 then Failure(CannotCast) else Success(Chunks(mem))
  }

  /** The `size_t` values of eight-byte elements. */
  function Decode(elements: seq<Bytes>): (vs: seq<nat>)
    ensures |vs| == |elements|
    ensures forall i :: 0 <= i < |elements| ==> vs[i] == LittleEndian(elements[i])
  {
    seq(|elements|, i requires 0 <= i < |elements| => LittleEndian(elements[i]))
  }

  /** `(length + 1) * sizeof(size_type)` in `size_t`. */
  function OffsetTableBytes(length: nat): nat
  {
    ((length + 1) * 8) % 0x1_0000_0000_0000_0000
  }

  /** `Payload_Vector::from(mem)`: the length in the first eight bytes, then
      `length + 1` offsets, then the payloads. */
  function From(mem: Bytes): (r: Result<PayloadVector>)
  {
    match UnpackHead(mem, [8])
    case Failure(e) => Failure(LengthParse(e))
    case Success((head, tail)) =>
      match Split(tail, OffsetTableBytes(LittleEndian(head[0])))
      case Failure(e) => Failure(OffsetTableParse(e))
      case Success((table, payloads)) =>
        match CastSpan(table)
        case Failure(e) => Failure(e)
        case Success(elements) => Success(PayloadVector(Decode(elements), payloads))
  }

  /** The offset-table size is always a multiple of eight, even when the
      product wraps, so the cast inside `from` never fails. */
  lemma OffsetTableAligned(length: nat)
    ensures OffsetTableBytes(length) % 8 == 0
  {
    var p := (length + 1) * 8;
    assert p % 0x1_0000_0000_0000_0000 == p - (p / 0x1_0000_0000_0000_0000) * 0x1_0000_0000_0000_0000;
    assert OffsetTableBytes(length) == 8 * ((length + 1) - (p / 0x1_0000_0000_0000_0000) * 0x2000_0000_0000_0000);
  }

  /** `from` fails exactly when the length does not fit or the offset table
      does not; otherwise the vector holds the decoded table and the bytes
      after it. */
  lemma FromOutcome(mem: Bytes)
    ensures |mem| < 8 ==> From(mem) == Failure(LengthParse(CannotUnpack))
    ensures |mem| >= 8 ==>
      var cut := OffsetTableBytes(LittleEndian(mem[..8]));
      (From(mem).Failure? <==> cut > |mem| - 8) &&
      (From(mem).Failure? ==> From(mem) == Failure(OffsetTableParse(CannotSplit))) &&
      (From(mem).Success? ==>
        |From(mem).value.offsets| == cut / 8 &&
        From(mem).value.payloads == mem[8 + cut..])
  {
    var u := UnpackHead(mem, [8]);
    assert Sum([8]) == 8;
    if |mem| >= 8 {
      var head, tail := u.value.0, u.value.1;
      assert Flatten(head) == head[0] by {
        assert head == [head[0]];
        FlattenCons(head[0], []);
      }
      assert head[0] == mem[..8] && tail == mem[8..];
      var cut := OffsetTableBytes(LittleEndian(head[0]));
      OffsetTableAligned(LittleEndian(head[0]));
      if cut <= |tail| {
        var s := Split(tail, cut);
        assert s.value.1 == tail[cut..];
      }
    }
  }

  /** The serialised form `from` reads: the number of payloads, the offset
      table, and the payload bytes, all `size_t` values little-endian. */
  function Serialize(v: PayloadVector): Bytes
    requires |v.offsets| >= 1
  {
    LittleEndianBytes(|v.offsets| - 1, 8) + Flatten(TableBytes(v.offsets)) + v.payloads
  }

  /** Each offset as its eight little-endian bytes. */
  function TableBytes(offsets: seq<nat>): (ps: seq<Bytes>)
    ensures |ps| == |offsets|
    ensures forall i :: 0 <= i < |offsets| ==> ps[i] == LittleEndianBytes(offsets[i], 8)
  {
    seq(|offsets|, i requires 0 <= i < |offsets| => LittleEndianBytes(offsets[i], 8))
  }

  /** The elements of eight-byte pieces laid end to end are those pieces. */
  lemma ChunksOfFlatten(pieces: seq<Bytes>)
    requires forall i :: 0 <= i < |pieces| ==> |pieces[i]| == 8
    ensures |Flatten(pieces)| == 8 * |pieces|
    ensures Chunks(Flatten(pieces)) == pieces
  {
    ChunksLength(pieces);
    ChunksUnique(Chunks(Flatten(pieces)), pieces);
  }

  /** Two lists of eight-byte elements with the same bytes are equal. */
  lemma {:induction false} ChunksUnique(a: seq<Bytes>, b: seq<Bytes>)
    requires |a| == |b|
    requires forall i :: 0 <= i < |a| ==> |a[i]| == 8
    requires forall i :: 0 <= i < |b| ==> |b[i]| == 8
    requires Flatten(a) == Flatten(b)
    ensures a == b
    decreases |a|
  {
    if a != [] {
      var n := |a|;
      ChunksLength(a[..n - 1]);
      ChunksLength(b[..n - 1]);
      var fa, fb := Flatten(a[..n - 1]), Flatten(b[..n - 1]);
      assert Flatten(a) == fa + a[n - 1] && Flatten(b) == fb + b[n - 1];
      assert fa == Flatten(a)[..|fa|] && fb == Flatten(b)[..|fb|];
      assert a[n - 1] == Flatten(a)[|fa|..] && b[n - 1] == Flatten(b)[|fb|..];
      ChunksUnique(a[..n - 1], b[..n - 1]);
      assert a == a[..n - 1] + [a[n - 1]] && b == b[..n - 1] + [b[n - 1]];
    }
  }

  lemma {:induction false} ChunksLength(a: seq<Bytes>)
    requires forall i :: 0 <= i < |a| ==> |a[i]| == 8
    ensures |Flatten(a)| == 8 * |a|
    ensures |Flatten(a)| % 8 == 0 && |Flatten(a)| / 8 == |a|
    decreases |a|
  {
    if a != [] {
      ChunksLength(a[..|a| - 1]);
    }
  }

  /** `unpack_head<size_type>` of a buffer that starts with eight bytes. */
  lemma UnpackLength(head: Bytes, rest: Bytes)
    requires |head| == 8
    ensures UnpackHead(head + rest, [8]) == Success(([head], rest))
  {
    assert Sum([8]) == 8;
    var fields := UnpackHead(head + rest, [8]).value.0;
    assert fields == [fields[0]];
    FlattenCons(fields[0], []);
  }

  lemma SplitJoined(front: Bytes, back: Bytes)
    ensures Split(front + back, |front|) == Success((front, back))
  {
    assert (front + back)[..|front|] == front;
  }

  /** `from` on a length field, a table of the size it announces, and the
      payload bytes. */
  lemma FromLayout(head: Bytes, table: Bytes, payloads: Bytes)
    requires |head| == 8 && |table| == OffsetTableBytes(LittleEndian(head))
    requires |table| % 8 == 0
    ensures From(head + table + payloads) == Success(PayloadVector(Decode(Chunks(table)), payloads))
  {
    assert head + table + payloads == head + (table + payloads);
    UnpackLength(head, table + payloads);
    SplitJoined(table, payloads);
  }

  /** `from` reads back the serialised form of any offset table whose
      values and size fit in `size_t`. */
  lemma FromSerialized(v: PayloadVector)
    requires |v.offsets| >= 1
    requires forall i :: 0 <= i < |v.offsets| ==> v.offsets[i] < SizeTypeModulus
    requires |v.offsets| * 8 < SizeTypeModulus
    ensures From(Serialize(v)) == Success(v)
  {
    assert Serialize(v) == LittleEndianBytes(|v.offsets| - 1, 8) + Flatten(TableBytes(v.offsets)) + v.payloads;
    var n := |v.offsets|;
    var head := LittleEndianBytes(n - 1, 8);
    var pieces := TableBytes(v.offsets);
    var table := Flatten(pieces);
    assert Pow256(8) == SizeTypeModulus;
    LittleEndianRoundTrip(n - 1, 8);
    ChunksOfFlatten(pieces);
    assert |table| == OffsetTableBytes(LittleEndian(head));
    FromLayout(head, table, v.payloads);
    forall i | 0 <= i < n ensures LittleEndian(pieces[i]) == v.offsets[i] {
      LittleEndianRoundTrip(v.offsets[i], 8);
    }
    assert Decode(Chunks(table)) == v.offsets;
  }

  /** A length field of `2^61 - 1` makes `(length + 1) * 8` wrap to 0: the
      offset table comes out empty and `size()` wraps to `2^64 - 1`. */
  lemma FromWrapsHugeLength(payloads: Bytes)
    ensures From([0xFF, 0xFF, 0xFF, 0xFF, 0xFF, 0xFF, 0xFF, 0x1F] + payloads) ==
            Success(PayloadVector([], payloads))
    ensures PayloadVector([], payloads).Size() == SizeTypeModulus - 1
  {
    var head: Bytes := [0xFF, 0xFF, 0xFF, 0xFF, 0xFF, 0xFF, 0xFF, 0x1F];
    assert LittleEndian(head) == 0x1FFF_FFFF_FFFF_FFFF by {
      assert LittleEndian(head[8..]) == 0;
      assert LittleEndian(head[7..]) == 0x1F;
      assert LittleEndian(head[6..]) == 0x1FFF;
      assert LittleEndian(head[5..]) == 0x1F_FFFF;
      assert LittleEndian(head[4..]) == 0x1FFF_FFFF;
      assert LittleEndian(head[3..]) == 0x1F_FFFF_FFFF;
      assert LittleEndian(head[2..]) == 0x1FFF_FFFF_FFFF;
      assert LittleEndian(head[1..]) == 0x1F_FFFF_FFFF_FFFF;
    }
    assert OffsetTableBytes(0x1FFF_FFFF_FFFF_FFFF) == 0;
    FromLayout(head, [], payloads);
    assert head + [] + payloads == head + payloads;
  }
}
