/** The payload of a motor feedback frame (communication type 2): four
    big-endian 16-bit codes for position, velocity, torque and temperature. */
module Feedback {
  import opened Base
  import opened Bits
  import opened Quantize

  /** Python's `s[i:j]` for non-negative bounds: both ends are clipped to
      the length and a reversed range is empty. */
  function Slice<T>(s: seq<T>, i: nat, j: nat): (r: seq<T>)
    ensures |r| <= |s|
    ensures i <= j ==> |r| <= j - i
    ensures j <= i ==> r == []
    ensures i <= j <= |s| ==> r == s[i..j]
    ensures i <= |s| <= j ==> r == s[i..]
    ensures |s| <= i ==> r == []
  {
    var lo := if i < |s| then i else |s|;
    var hi := if j < |s| then j else |s|;
    if hi <= lo then [] else s[lo..hi]
  }

  /** The largest code of a 16-bit field, the mapping's `target_max`. */
  const CodeTop: real := 65535.0

  /** Position range in radians: the source writes `4*3.14`. */
  const PosMax: real := 4.0 * 3.14
  /** Velocity range in rad/s. */
  const VelMax: real := 30.0
  /** Torque range in N·m. */
  const TorqueMax: real := 12.0

  /** The 16-bit codes run from 0 to 65535. */
  lemma SixteenBitTop()
    ensures Pow2(16) == 65536 && TopCode(16) == CodeTop
  {
    assert Pow2(4) == 16;
    assert Pow2(8) == 256 by {
      assert Pow2(8) == 2 * 2 * 2 * 2 * Pow2(4);
    }
    assert Pow2(12) == 4096 by {
      assert Pow2(12) == 2 * 2 * 2 * 2 * Pow2(8);
    }
    assert Pow2(16) == 2 * 2 * 2 * 2 * Pow2(12);
  }

  /** A big-endian field of at most two bytes is a 16-bit code. */
  lemma FieldIsCode(b: seq<byte>)
    requires |b| <= 2
    ensures 0 <= FromBE(b) <= 65535
  {
    assert Pow256(0) == 1 && Pow256(1) == 256 && Pow256(2) == 65536;
  }

  /** `motor_status_parser`: position, velocity, torque and temperature
      (tenths of a degree) out of the eight payload bytes. Short input gives
      shorter fields, as slicing does. */
  function MotorStatusParser(data: seq<byte>): (status: seq<real>)
    ensures |status| == 4
    ensures -PosMax <= status[0] <= PosMax
    ensures -VelMax <= status[1] <= VelMax
    ensures -TorqueMax <= status[2] <= TorqueMax
    ensures 0.0 <= status[3] <= 6553.5
  {
    var posCode := FromBE(Slice(data, 0, 2));
    var velCode := FromBE(Slice(data, 2, 4));
    var tauCode := FromBE(Slice(data, 4, 6));
    var tempCode := FromBE(Slice(data, 6, 8));
    FieldIsCode(Slice(data, 0, 2));
    FieldIsCode(Slice(data, 2, 4));
    FieldIsCode(Slice(data, 4, 6));
    FieldIsCode(Slice(data, 6, 8));
    LinearMappingRange(posCode as real, -PosMax, PosMax, 0.0, CodeTop);
    LinearMappingRange(velCode as real, -VelMax, VelMax, 0.0, CodeTop);
    LinearMappingRange(tauCode as real, -TorqueMax, TorqueMax, 0.0, CodeTop);
    [ LinearMapping(posCode as real, -PosMax, PosMax, 0.0, CodeTop),
      LinearMapping(velCode as real, -VelMax, VelMax, 0.0, CodeTop),
      LinearMapping(tauCode as real, -TorqueMax, TorqueMax, 0.0, CodeTop),
      tempCode as real / 10.0 ]
  }

  /** On a full payload each field is read most significant byte first. */
  lemma StatusFields(data: seq<byte>)
    requires |data| == 8
    ensures var s := MotorStatusParser(data);
            && s[0] == LinearMapping((data[0] as int * 256 + data[1] as int) as real, -PosMax, PosMax, 0.0, CodeTop)
            && s[1] == LinearMapping((data[2] as int * 256 + data[3] as int) as real, -VelMax, VelMax, 0.0, CodeTop)
            && s[2] == LinearMapping((data[4] as int * 256 + data[5] as int) as real, -TorqueMax, TorqueMax, 0.0, CodeTop)
            && s[3] == (data[6] as int * 256 + data[7] as int) as real / 10.0
  {
    forall k | 0 <= k < 4
      ensures FromBE(Slice(data, 2 * k, 2 * k + 2)) == data[2 * k] as int * 256 + data[2 * k + 1] as int
    {
      var f := data[2 * k..2 * k + 2];
      assert f[..1] == [data[2 * k]];
      assert FromBE(f[..1]) == data[2 * k] as int;
    }
    assert Slice(data, 0, 2) == Slice(data, 2 * 0, 2 * 0 + 2);
    assert Slice(data, 2, 4) == Slice(data, 2 * 1, 2 * 1 + 2);
    assert Slice(data, 4, 6) == Slice(data, 2 * 2, 2 * 2 + 2);
    assert Slice(data, 6, 8) == Slice(data, 2 * 3, 2 * 3 + 2);
  }

  /** The feedback mapping undoes the 16-bit quantisation of the same range:
      it agrees with `_uint_to_float` on every code. */
  lemma FeedbackMappingIsDequantise(code: nat, hi: real)
    requires code <= 65535 && hi > 0.0
    ensures LinearMapping(code as real, -hi, hi, 0.0, CodeTop) == UintToFloat(code as real, -hi, hi, 16)
  {
    SixteenBitTop();
    assert Clamp(code as real, 0.0, CodeTop) == code as real;
    LinearMappingIsUnscale(code as real, -hi, hi, 0.0, CodeTop);
  }

  /** A physical value quantised to 16 bits and read back through the
      feedback mapping lands at most one code step below where it was. */
  lemma FeedbackRoundTrip(x: real, hi: real)
    requires hi > 0.0 && -hi <= x <= hi
    ensures var code := FloatToUint(x, -hi, hi, 16);
            && 0 <= code <= 65535
            && var back := LinearMapping(code as real, -hi, hi, 0.0, CodeTop);
               back <= x < back + 2.0 * hi / CodeTop
  {
    var code := FloatToUint(x, -hi, hi, 16);
    SixteenBitTop();
    FloatToUintRange(x, -hi, hi, 16);
    FeedbackMappingIsDequantise(code, hi);
    QuantizeRoundTrip(x, -hi, hi, 16);
    assert (hi - -hi) / TopCode(16) == 2.0 * hi / CodeTop;
  }
}
