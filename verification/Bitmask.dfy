/** Byte masks, and the sets of positions they stand for. */
module Bitmask {
  import opened Numbers

  const MASK_CHUNK_BITS := 8

  type Mask = seq<bv8>

  /** Byte and bit of a position, or the position itself if the mask has no room for it. */
  function Locate(length: nat, position: u16): (r: Result<(nat, nat), u16>)
    ensures r.Ok? <==> position < length * MASK_CHUNK_BITS
    ensures r.Ok? ==> r.value.0 < length && r.value.1 < 8 && r.value.0 * 8 + r.value.1 == position
    ensures r.Err? ==> r.error == position
  {
    if position < length * MASK_CHUNK_BITS then Ok((position / MASK_CHUNK_BITS, position % MASK_CHUNK_BITS))
    else Err(position)
  }

  predicate Bit(b: bv8, k: nat)
    requires k < 8
  {
    (b >> k) & 1 == 1
  }

  function One(k: nat): bv8
    requires k < 8
  {
    1 << k
  }

  predicate BitAt(mask: Mask, p: nat)
    requires p < |mask| * 8
  {
    Bit(mask[p / 8], p % 8)
  }

  /** The set a mask stands for. */
  function Members(mask: Mask): set<nat> {
    set p | 0 <= p < |mask| * 8 && BitAt(mask, p)
  }

  /** Reading a bit is asking for membership. */
  function IsSet(mask: Mask, position: u16): (r: Result<bool, u16>)
    ensures r.Ok? <==> position < |mask| * 8
    ensures r.Ok? ==> (r.value <==> position in Members(mask))
    ensures r.Err? ==> r.error == position
  {
    match Locate(|mask|, position)
    case Err(p) => Err(p)
    case Ok((byte, bit)) => Ok((mask[byte] >> bit) & 1 == 1)
  }

  const WEIGHTS: seq<bv8> := [1, 2, 4, 8, 16, 32, 64, 128]

  /** Bit k of a byte is the one that weighs 2^k. */
  lemma BitMeans(b: bv8, k: nat)
    requires k < 8
    ensures One(k) == WEIGHTS[k]
    ensures Bit(b, k) <==> b & WEIGHTS[k] == WEIGHTS[k]
  {
  }

  lemma OrSetsBit(b: bv8, k: nat, j: nat)
    requires k < 8 && j < 8
    ensures Bit(b | One(k), j) <==> j == k || Bit(b, j)
  {
  }

  lemma AndClearsBit(b: bv8, k: nat, j: nat)
    requires k < 8 && j < 8
    ensures Bit(b & !One(k), j) <==> j != k && Bit(b, j)
  {
  }

  /** Rewriting one byte changes its own bits and no others. */
  lemma ByteUpdate(mask: Mask, byte: nat, bit: nat, b: bv8, on: bool)
    requires byte < |mask| && bit < 8
    requires forall j | 0 <= j < 8 :: Bit(b, j) <==> if j == bit then on else Bit(mask[byte], j)
    ensures Members(mask[byte := b]) ==
            if on then Members(mask) + {byte * 8 + bit} else Members(mask) - {byte * 8 + bit}
  {
    forall p | 0 <= p < |mask| * 8
      ensures BitAt(mask[byte := b], p) <==> if p == byte * 8 + bit then on else BitAt(mask, p)
    {
    }
  }

  lemma SetMember(mask: Mask, byte: nat, bit: nat)
    requires byte < |mask| && bit < 8
    ensures Members(mask[byte := mask[byte] | One(bit)]) == Members(mask) + {byte * 8 + bit}
  {
    forall j | 0 <= j < 8 ensures Bit(mask[byte] | One(bit), j) <==> j == bit || Bit(mask[byte], j) {
      OrSetsBit(mask[byte], bit, j);
    }
    ByteUpdate(mask, byte, bit, mask[byte] | One(bit), true);
  }

  lemma ClearMember(mask: Mask, byte: nat, bit: nat)
    requires byte < |mask| && bit < 8
    ensures Members(mask[byte := mask[byte] & !One(bit)]) == Members(mask) - {byte * 8 + bit}
  {
    forall j | 0 <= j < 8 ensures Bit(mask[byte] & !One(bit), j) <==> j != bit && Bit(mask[byte], j) {
      AndClearsBit(mask[byte], bit, j);
    }
    ByteUpdate(mask, byte, bit, mask[byte] & !One(bit), false);
  }

  /** The positions before the first one that is out of range. */
  function InRange(length: nat, positions: seq<u16>): (n: nat)
    ensures n <= |positions|
    ensures forall i | 0 <= i < n :: positions[i] < length * 8
    ensures n < |positions| ==> positions[n] >= length * 8
  {
    if |positions| == 0 || positions[0] >= length * 8 then 0 else
      assert forall i | 0 < i < |positions| :: positions[i] == positions[1..][i - 1];
      1 + InRange(length, positions[1..])
  }

  function Elements(positions: seq<u16>): set<nat> { set i | 0 <= i < |positions| :: positions[i] }

  lemma OneMore(positions: seq<u16>, n: nat)
    requires n < |positions|
    ensures Elements(positions[..n + 1]) == Elements(positions[..n]) + {positions[n]}
  {
    var more := positions[..n + 1];
    assert forall i | 0 <= i < n :: more[i] == positions[..n][i];
    forall x | x in Elements(positions[..n]) ensures x in Elements(more) {
      var i :| 0 <= i < n && positions[..n][i] == x;
      assert more[i] == x;
    }
    assert more[n] == positions[n];
  }

  method SetBit(mask: array<bv8>, byte: nat, bit: nat)
    requires byte < mask.Length && bit < 8
    modifies mask
    ensures Members(mask[..]) == Members(old(mask[..])) + {byte * 8 + bit}
  {
    ghost var was := mask[..];
    mask[byte] := mask[byte] | One(bit);
    assert mask[..] == was[byte := was[byte] | One(bit)];
    SetMember(was, byte, bit);
  }

  /** Union with the positions; on an out-of-range one, with exactly those before it. */
  method SetBits(mask: array<bv8>, positions: seq<u16>) returns (r: Result<(), u16>)
    modifies mask
    ensures var n := InRange(mask.Length, positions);
            && Members(mask[..]) == Members(old(mask[..])) + Elements(positions[..n])
            && r == if n == |positions| then Ok(()) else Err(positions[n])
  {
    ghost var before := mask[..];
    for n := 0 to |positions|
      invariant forall i | 0 <= i < n :: positions[i] < mask.Length * 8
      invariant Members(mask[..]) == Members(before) + Elements(positions[..n])
    {
      match Locate(mask.Length, positions[n]) {
        case Err(p) =>
          assert InRange(mask.Length, positions) == n;
          return Err(p);
        case Ok((byte, bit)) =>
          SetBit(mask, byte, bit);
          OneMore(positions, n);
      }
    }
    assert InRange(mask.Length, positions) == |positions|;
    return Ok(());
  }

  method ClearBit(mask: array<bv8>, byte: nat, bit: nat)
    requires byte < mask.Length && bit < 8
    modifies mask
    ensures Members(mask[..]) == Members(old(mask[..])) - {byte * 8 + bit}
  {
    ghost var was := mask[..];
    mask[byte] := mask[byte] & !One(bit);
    assert mask[..] == was[byte := was[byte] & !One(bit)];
    ClearMember(was, byte, bit);
  }

  /** Difference with the positions; on an out-of-range one, with exactly those before it. */
  method ClearBits(mask: array<bv8>, positions: seq<u16>) returns (r: Result<(), u16>)
    modifies mask
    ensures var n := InRange(mask.Length, positions);
            && Members(mask[..]) == Members(old(mask[..])) - Elements(positions[..n])
            && r == if n == |positions| then Ok(()) else Err(positions[n])
  {
    ghost var before := mask[..];
    for n := 0 to |positions|
      invariant forall i | 0 <= i < n :: positions[i] < mask.Length * 8
      invariant Members(mask[..]) == Members(before) - Elements(positions[..n])
    {
      match Locate(mask.Length, positions[n]) {
        case Err(p) =>
          assert InRange(mask.Length, positions) == n;
          return Err(p);
        case Ok((byte, bit)) =>
          ClearBit(mask, byte, bit);
          OneMore(positions, n);
      }
    }
    assert InRange(mask.Length, positions) == |positions|;
    return Ok(());
  }
}
