/** The cursor of Borsh.sol: a buffer and an offset that every decoder moves. An abort undoes the call, so after
    `None` nothing is said of the offset. */
module BorshData {
  import opened Prelude
  import opened NearTypes
  import opened Borsh

  /** The call returned what the decoder yields and moved the offset to where it stops. */
  ghost predicate Did<T>(p: Parsed<T>, r: Option<T>, offset: nat) {
    match p
    case None => r.None?
    case Some(v) => r == Some(v.0) && offset == v.1
  }

  class Data {
    const raw: Bytes
    var offset: nat

    constructor (raw: Bytes)
      ensures this.raw == raw && offset == 0
    {
      this.raw := raw;
      offset := 0;
    }

    predicate Finished()
      reads this
    {
      offset == |raw|
    }

    /** The hash of the next `length` bytes; past the end of the buffer it covers whatever memory holds. */
    method PeekSha256(sha: Bytes -> Bytes32, length: nat) returns (h: Bytes32)
      ensures offset + length <= |raw| ==> h == sha(raw[offset..offset + length])
    {
      h := if offset + length <= |raw| then sha(raw[offset..offset + length]) else sha([]);
    }

    method DecodeU8() returns (r: Option<Byte>)
      modifies this`offset
      ensures Did(ParseU8(raw, old(offset)), r, offset)
    {
      if |raw| < offset + 1 {
        return None;
      }
      r := Some(raw[offset]);
      offset := offset + 1;
    }

    method DecodeU16() returns (r: Option<nat>)
      modifies this`offset
      ensures Did(ParseUint(2, raw, old(offset)), r, offset)
    {
      ghost var o := offset;
      Halves1(raw, o);
      OneByte(raw, o);
      OneByte(raw, o + 1);
      var lo: nat :- DecodeU8();
      var hi: nat :- DecodeU8();
      r := Some(FromHalves(0x100, lo, hi));
    }

    method DecodeU32() returns (r: Option<nat>)
      modifies this`offset
      ensures Did(ParseUint(4, raw, old(offset)), r, offset)
    {
      Halves2(raw, offset);
      var lo :- DecodeU16();
      var hi :- DecodeU16();
      r := Some(FromHalves(0x1_0000, lo, hi));
    }

    method DecodeU64() returns (r: Option<nat>)
      modifies this`offset
      ensures Did(ParseUint(8, raw, old(offset)), r, offset)
    {
      Halves4(raw, offset);
      var lo :- DecodeU32();
      var hi :- DecodeU32();
      r := Some(FromHalves(0x1_0000_0000, lo, hi));
    }

    method DecodeU128() returns (r: Option<nat>)
      modifies this`offset
      ensures Did(ParseUint(16, raw, old(offset)), r, offset)
    {
      Halves8(raw, offset);
      var lo :- DecodeU64();
      var hi :- DecodeU64();
      r := Some(FromHalves(MAX_U64 + 1, lo, hi));
    }

    method DecodeU256() returns (r: Option<nat>)
      modifies this`offset
      ensures Did(ParseUint(32, raw, old(offset)), r, offset)
    {
      Halves16(raw, offset);
      var lo :- DecodeU128();
      var hi :- DecodeU128();
      r := Some(FromHalves(MAX_U128 + 1, lo, hi));
    }

    method DecodeBytes() returns (r: Option<Bytes>)
      modifies this`offset
      ensures Did(ParseBytes(raw, old(offset)), r, offset)
    {
      var n :- DecodeU32();
      ghost var start := offset;
      var value: Bytes := [];
      for i := 0 to n
        invariant offset == start + i <= |raw| && value == raw[start..offset]
      {
        var b :- DecodeU8();
        value := value + [b];
      }
      r := Some(value);
    }

    method DecodeBytes32() returns (r: Option<Bytes32>)
      modifies this`offset
      ensures Did(ParseBytes32(raw, old(offset)), r, offset)
    {
      if |raw| < offset + 32 {
        return None;
      }
      r := Some(raw[offset..offset + 32]);
      offset := offset + 32;
    }
  }

  lemma OneByte(raw: Bytes, o: nat)
    ensures ParseUint(1, raw, o) == ParseU8(raw, o)
  {
    if o < |raw| {
      assert raw[o..o + 1] == [raw[o]];
      assert LeValue([raw[o]]) == raw[o] + 256 * LeValue([]);
    }
  }
}
