/** `strict_sequence`: a sorted sequence stored with whichever of three codecs
    (strict Elias-Fano, compact ranked bitvector, all-ones) costs the fewest
    bits, behind a one-bit type tag that is left out when the all-ones code
    costs nothing. The three codecs are not part of this model: each is its
    bit cost and the bits it writes, given as functions. */
module StrictSequences {

  type uint64 = x: int | 0 <= x < 0x1_0000_0000_0000_0000

  /** `index_type`, with its codes 0, 1 and 2. */
  datatype IndexType = EliasFano | RankedBitvector | AllOnes {
    function Code(): (c: nat)
      ensures c < 3
    {
      match this
      case EliasFano => 0
      case RankedBitvector => 1
      case AllOnes => 2
    }
  }

  /** `type_bits`: the width of the tag. */
  const TypeBits: nat := 1

  /** The parameters the strict variant changes; the other fields of
      `global_parameters` are carried along unchanged in `rest`. */
  datatype GlobalParameters = GlobalParameters(efLogSampling0: nat, rbLogRank1Sampling: nat, rest: seq<nat>)

  /** `strict_params`: no sampling of the zeros, for either codec. */
  function StrictParams(params: GlobalParameters): (s: GlobalParameters)
    ensures s.efLogSampling0 == 63 && s.rbLogRank1Sampling == 63 && s.rest == params.rest
  {
    params.(efLogSampling0 := 63, rbLogRank1Sampling := 63)
  }

  lemma StrictParamsIdempotent(params: GlobalParameters)
    ensures StrictParams(StrictParams(params)) == StrictParams(params)
  {
  }

  /** One codec: its `bitsize(params, universe, n)` and the bits its
      `write(begin, universe, n, params)` appends. */
  datatype Codec = Codec(
    bitsize: (GlobalParameters, uint64, uint64) -> uint64,
    write: (seq<uint64>, uint64, uint64, GlobalParameters) -> seq<bool>)

  datatype Codecs = Codecs(eliasFano: Codec, rankedBitvector: Codec, allOnes: Codec) {
    function Of(t: IndexType): Codec {
      match t
      case EliasFano => eliasFano
      case RankedBitvector => rankedBitvector
      case AllOnes => allOnes
    }
  }

  /** `cost + type_bits` in `uint64_t`. */
  function Tagged(cost: uint64): (r: uint64)
    ensures cost + TypeBits < 0x1_0000_0000_0000_0000 ==> r == cost + TypeBits
  {
    (cost + TypeBits) % 0x1_0000_0000_0000_0000
  }

  /** The cost the selection compares for each type: the all-ones bit size
      under the caller's parameters, or a strict codec's bit size under the
      strict parameters plus the tag. */
  function Cost(cs: Codecs, t: IndexType, params: GlobalParameters, universe: uint64, n: uint64): uint64
  {
    match t
    case AllOnes => cs.allOnes.bitsize(params, universe, n)
    case EliasFano => Tagged(cs.eliasFano.bitsize(StrictParams(params), universe, n))
    case RankedBitvector => Tagged(cs.rankedBitvector.bitsize(StrictParams(params), universe, n))
  }

  /** `bitsize`: the least of the three costs. */
  function Bitsize(cs: Codecs, params: GlobalParameters, universe: uint64, n: uint64): (r: uint64)
    ensures forall t: IndexType :: r <= Cost(cs, t, params, universe, n)
    ensures exists t: IndexType :: r == Cost(cs, t, params, universe, n)
  {
    var allOnes := Cost(cs, AllOnes, params, universe, n);
    var ef := Cost(cs, EliasFano, params, universe, n);
    var rb := Cost(cs, RankedBitvector, params, universe, n);
    var best := if ef < allOnes then ef else allOnes;
    var r := if rb < best then rb else best;
    assert r == Cost(cs, if r == allOnes then AllOnes else if r == ef then EliasFano else RankedBitvector, params, universe, n);
    r
  }

  /** The type `write` selects: all-ones when it costs nothing; otherwise a
      candidate replaces the current choice only when strictly cheaper, so
      ties go to all-ones, then to Elias-Fano. */
  function Selected(cs: Codecs, params: GlobalParameters, universe: uint64, n: uint64): (t: IndexType)
    ensures var allOnes, ef, rb := Cost(cs, AllOnes, params, universe, n),
                                   Cost(cs, EliasFano, params, universe, n),
                                   Cost(cs, RankedBitvector, params, universe, n);
      (t == AllOnes <==> allOnes == 0 || (allOnes <= ef && allOnes <= rb)) &&
      (t == EliasFano <==> allOnes != 0 && ef < allOnes && ef <= rb) &&
      (t == RankedBitvector <==> allOnes != 0 && rb < allOnes && rb < ef)
  {
    var allOnes := Cost(cs, AllOnes, params, universe, n);
    if allOnes == 0 then AllOnes
    else
      var ef := Cost(cs, EliasFano, params, universe, n);
      var rb := Cost(cs, RankedBitvector, params, universe, n);
      var (bestCost, bestType) := if ef < allOnes then (ef, EliasFano) else (allOnes, AllOnes);
      if rb < bestCost then RankedBitvector else bestType
  }

  /** With a nonzero all-ones cost, `write` spends exactly what `bitsize`
      reports; with a zero one, both are zero. */
  lemma SelectedCostIsBitsize(cs: Codecs, params: GlobalParameters, universe: uint64, n: uint64)
    ensures Cost(cs, Selected(cs, params, universe, n), params, universe, n) == Bitsize(cs, params, universe, n)
  {
    var r := Bitsize(cs, params, universe, n);
    var t :| r == Cost(cs, t, params, universe, n);
    assert r <= Cost(cs, AllOnes, params, universe, n);
    assert r <= Cost(cs, EliasFano, params, universe, n);
    assert r <= Cost(cs, RankedBitvector, params, universe, n);
  }

  /** The low `len` bits of `value`, least significant first. */
  function LowBits(value: nat, len: nat): (bits: seq<bool>)
    ensures |bits| == len
  {
    if len == 0 then [] else [value % 2 == 1] + LowBits(value / 2, len - 1)
  }

  /** The tag `write` puts in front of the codec's bits: none when the
      all-ones cost is zero, otherwise the selected type's code in
      `type_bits` bits. */
  function Tag(cs: Codecs, params: GlobalParameters, universe: uint64, n: uint64): (tag: seq<bool>)
    ensures |tag| == (if Cost(cs, AllOnes, params, universe, n) == 0 then 0 else TypeBits)
  {
    if Cost(cs, AllOnes, params, universe, n) == 0 then []
    else LowBits(Selected(cs, params, universe, n).Code(), TypeBits)
  }

  /** `bit_vector_builder`, as far as `write` uses it: a growing sequence of
      bits. */
  class BitVectorBuilder {
    var bits: seq<bool>

    constructor ()
      ensures bits == []
    {
      bits := [];
    }

    /** `append_bits(value, len)`: the low `len` bits of `value`. */
    method AppendBits(value: nat, len: nat)
      modifies this
      ensures bits == old(bits) + LowBits(value, len)
    {
      bits := bits + LowBits(value, len);
    }

    /** What a codec's `write` appends. */
    method Append(more: seq<bool>)
      modifies this
      ensures bits == old(bits) + more
    {
      bits := bits + more;
    }
  }

  /** `strict_sequence::write`: pick the cheapest type, write the tag when
      the all-ones cost is nonzero, then the selected codec's bits under the
      strict parameters. */
  method Write(bvb: BitVectorBuilder, values: seq<uint64>, universe: uint64, n: uint64,
               params: GlobalParameters, cs: Codecs)
    modifies bvb
    ensures bvb.bits == old(bvb.bits) + Tag(cs, params, universe, n) +
            cs.Of(Selected(cs, params, universe, n)).write(values, universe, n, StrictParams(params))
  {
    var sparams := StrictParams(params);
    var bestCost: uint64 := cs.allOnes.bitsize(params, universe, n);
    var bestType := AllOnes;
    if bestCost != 0 {
      var efCost := Tagged(cs.eliasFano.bitsize(sparams, universe, n));
      if efCost < bestCost {
        bestCost := efCost;
        bestType := EliasFano;
      }
      var rbCost := Tagged(cs.rankedBitvector.bitsize(sparams, universe, n));
      if rbCost < bestCost {
        bestCost := rbCost;
        bestType := RankedBitvector;
      }
      bvb.AppendBits(bestType.Code(), TypeBits);
    }
    assert bestType == Selected(cs, params, universe, n);
    match bestType
    case EliasFano => bvb.Append(cs.eliasFano.write(values, universe, n, sparams));
    case RankedBitvector => bvb.Append(cs.rankedBitvector.write(values, universe, n, sparams));
    case AllOnes => bvb.Append(cs.allOnes.write(values, universe, n, sparams));
  }

  /** The type a one-bit tag names: 0 is Elias-Fano, 1 the ranked
      bitvector; the `Unsupported type` branch is out of reach. */
  function TagType(bit: bool): (t: IndexType)
    ensures t != AllOnes && (bit <==> t.Code() == 1)
  {
    if bit then RankedBitvector else EliasFano
  }

  /** The type the enumerator decodes at `offset` of `bv`. */
  function DecodedType(bv: seq<bool>, offset: nat, cs: Codecs, params: GlobalParameters,
                       universe: uint64, n: uint64): (t: IndexType)
    requires Cost(cs, AllOnes, params, universe, n) != 0 ==> offset < |bv|
    ensures t == AllOnes <==> Cost(cs, AllOnes, params, universe, n) == 0
  {
    if cs.allOnes.bitsize(params, universe, n) == 0 then AllOnes else TagType(bv[offset])
  }

  /** The codec enumerator the strict enumerator delegates to: its type and
      where it starts reading. */
  datatype Inner = Inner(kind: IndexType, offset: nat, universe: uint64, n: uint64, params: GlobalParameters)

  /** `strict_sequence::enumerator`, as far as its constructor goes. */
  class Enumerator {
    var mType: IndexType
    var inner: Inner

    /** The type is all-ones when that costs nothing, otherwise the tag bit
        at `offset` (the low bit of the word there); the inner enumerator
        starts after the tag in every case. */
    constructor (bv: seq<bool>, offset: nat, universe: uint64, n: uint64,
                 params: GlobalParameters, cs: Codecs)
      requires Cost(cs, AllOnes, params, universe, n) != 0 ==> offset < |bv|
      ensures mType == DecodedType(bv, offset, cs, params, universe, n)
      ensures inner == Inner(mType, offset + TypeBits, universe, n, StrictParams(params))
    {
      var sparams := StrictParams(params);
      if cs.allOnes.bitsize(params, universe, n) == 0 {
        mType := AllOnes;
      } else {
        mType := TagType(bv[offset]);
      }
      inner := Inner(mType, offset + TypeBits, universe, n, sparams);
    }
  }

  /** Reading back what `write` appended after `prefix`: the enumerator
      decodes the selected type, unless all-ones was selected at a nonzero
      cost. */
  lemma WriteThenDecode(prefix: seq<bool>, values: seq<uint64>, universe: uint64, n: uint64,
                        params: GlobalParameters, cs: Codecs)
    requires Selected(cs, params, universe, n) != AllOnes || Cost(cs, AllOnes, params, universe, n) == 0
    ensures var bv := prefix + Tag(cs, params, universe, n) +
                      cs.Of(Selected(cs, params, universe, n)).write(values, universe, n, StrictParams(params));
      (Cost(cs, AllOnes, params, universe, n) != 0 ==> |prefix| < |bv|) &&
      DecodedType(bv, |prefix|, cs, params, universe, n) == Selected(cs, params, universe, n)
  {
    var t := Selected(cs, params, universe, n);
    var bv := prefix + Tag(cs, params, universe, n) + cs.Of(t).write(values, universe, n, StrictParams(params));
    if Cost(cs, AllOnes, params, universe, n) != 0 {
      assert bv[|prefix|] == Tag(cs, params, universe, n)[0] == (t.Code() % 2 == 1);
    }
  }

  /** The one-bit tag cannot hold all-ones' code 2: were all-ones selected
      at a nonzero cost, its tag would read back as Elias-Fano. */
  lemma AllOnesTagReadsAsEliasFano(prefix: seq<bool>, rest: seq<bool>, universe: uint64, n: uint64,
                                   params: GlobalParameters, cs: Codecs)
    requires Cost(cs, AllOnes, params, universe, n) != 0 && Selected(cs, params, universe, n) == AllOnes
    ensures DecodedType(prefix + Tag(cs, params, universe, n) + rest, |prefix|, cs, params, universe, n) == EliasFano
  {
    var bv := prefix + Tag(cs, params, universe, n) + rest;
    assert bv[|prefix|] == Tag(cs, params, universe, n)[0];
  }
}
