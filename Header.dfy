/** The four identifier bytes of a CAN frame: how commands pack them and how
    the feedback path reads them back. */
module Header {
  import opened Base
  import opened Bits

  /** The four leading entries that `organize_can_message` computes from the
      mode, `cmd_data[0]`, `cmd_data[1]` and the motor id: the 29-bit extended
      identifier shifted left by 3 with the tag bits 0b100, cut at 3/5-bit
      boundaries. Only entry 2 is masked to 8 bits; entries 0, 1 and 3 are
      not, and entries 1 and 3 keep the high bits of their shifted id. */
  function HeaderOf(mode: nat, c0: nat, c1: nat, motorId: nat): seq<int>
  {
    [ Or(mode * 8, c1 / 32),
      Or(c1 * 8, c0 / 32),
      Or(c0 * 8, motorId / 32) % 256,
      motorId * 8 + 4 ]
  }

  /** `organize_can_message` with `data_num == 8`: the 13-entry frame with the
      header, the length 8 and the first eight payload entries. Python raises
      IndexError when `cmd_data` has fewer than 2 or `data` fewer than 8 entries. */
  method OrganizeCanMessage(mode: nat, cmdData: seq<nat>, data: seq<int>, motorId: nat)
    returns (r: Result<seq<int>>)
    ensures |cmdData| >= 2 && |data| >= 8 ==>
      r == Ok(HeaderOf(mode, cmdData[0], cmdData[1], motorId) + [8] + data[..8])
    ensures |cmdData| < 2 || |data| < 8 ==> r == Raise(IndexError)
  {
    if |cmdData| < 2 {
      return Raise(IndexError);
    }
    var cdata := new int[13][0, 0, 0, 0, 0x08, 0, 0, 0, 0, 0, 0, 0, 0];
    cdata[0] := Or(mode * 8, cmdData[1] / 32);
    cdata[1] := Or(cmdData[1] * 8, cmdData[0] / 32);
    cdata[2] := Or(cmdData[0] * 8, motorId / 32) % 256;
    cdata[3] := motorId * 8 + 4;
    cdata[4] := 8;
    ghost var header := cdata[..5];
    assert header == HeaderOf(mode, cmdData[0], cmdData[1], motorId) + [8];
    for i := 0 to 8
      invariant i <= |data|
      invariant cdata[..5] == header
      invariant cdata[5..5 + i] == data[..i]
    {
      if i >= |data| {
        return Raise(IndexError);
      }
      cdata[5 + i] := data[i];
    }
    assert cdata[..] == cdata[..5] + cdata[5..13];
    r := Ok(cdata[..]);
  }

  /** Each entry reduced to a byte, as `& 0xff` would. */
  function Mod256(s: seq<int>): (r: seq<byte>)
    ensures |r| == |s| && forall i :: 0 <= i < |s| ==> r[i] == s[i] % 256
  {
    seq(|s|, i requires 0 <= i < |s| => s[i] % 256)
  }

  /** The 29-bit extended identifier: mode in bits 28-24, `cmd_data[1]` in
      bits 23-16, `cmd_data[0]` in bits 15-8, the motor id in bits 7-0. With
      every field in range these bit ranges are disjoint, so the `|` of the
      shifted fields is their sum. */
  function ExtendedId(mode: nat, c1: nat, c0: nat, motorId: nat): nat
  {
    mode * 0x100_0000 + c1 * 0x1_0000 + c0 * 0x100 + motorId
  }

  /** With ids below 256 the `|` of lines 195-197 adds disjoint bits. */
  lemma HeaderAsSums(mode: nat, c0: nat, c1: nat, motorId: nat)
    requires c0 < 256 && c1 < 256 && motorId < 256
    ensures HeaderOf(mode, c0, c1, motorId) ==
      [mode * 8 + c1 / 32, c1 * 8 + c0 / 32, (c0 * 8 + motorId / 32) % 256, motorId * 8 + 4]
  {
    assert Pow2(3) == 8;
    OrDisjoint(mode, c1 / 32, 3);
    OrDisjoint(c1, c0 / 32, 3);
    OrDisjoint(c0, motorId / 32, 3);
  }

  /** The big-endian reading of four bytes. */
  lemma FromBE4(b: seq<byte>)
    requires |b| == 4
    ensures FromBE(b) == (b[0] as int) * 0x100_0000 + (b[1] as int) * 0x1_0000 + (b[2] as int) * 0x100 + b[3]
  {
    assert b[..3][..2] == b[..2] && b[..2][..1] == b[..1] && b[..1][..0] == [];
    assert FromBE(b[..1]) == b[0];
    assert FromBE(b[..2]) == (b[0] as int) * 0x100 + b[1];
    assert FromBE(b[..3]) == (b[0] as int) * 0x1_0000 + (b[1] as int) * 0x100 + b[2];
  }

  /** `x % 256` when the bits of `x` above bit 7 are `q`. */
  lemma Mod256Split(q: int, x: int)
    requires 0 <= x < 256
    ensures (256 * q + x) % 256 == x
  {
  }

  /** An 8-bit id shifted left by 3 with `d` in the low bits, cut to a
      byte, keeps only the id's low 5 bits. */
  lemma ShiftedByte(c: nat, d: nat)
    requires c < 256 && d < 8
    ensures (c * 8 + d) % 256 == (c % 32) * 8 + d
  {
    var q, r := c / 32, c % 32;
    assert c == 32 * q + r;
    assert c * 8 + d == 256 * q + (r * 8 + d);
    Mod256Split(q, r * 8 + d);
  }

  /** The entries of `HeaderAsSums` reduced to bytes. */
  lemma SumsAsBytes(h: seq<int>, mode: nat, c0: nat, c1: nat, motorId: nat)
    requires mode < 32 && c0 < 256 && c1 < 256 && motorId < 256
    requires h == [mode * 8 + c1 / 32, c1 * 8 + c0 / 32, (c0 * 8 + motorId / 32) % 256, motorId * 8 + 4]
    ensures var b := Mod256(h);
            && |b| == 4
            && b[0] == mode * 8 + c1 / 32
            && b[1] == (c1 % 32) * 8 + c0 / 32
            && b[2] == (c0 % 32) * 8 + motorId / 32
            && b[3] == (motorId % 32) * 8 + 4
  {
    ShiftedByte(c1, c0 / 32);
    ShiftedByte(c0, motorId / 32);
    ShiftedByte(motorId, 4);
  }

  /** The header entries reduced to bytes: each 8-bit id is cut into its top
      3 bits, which end one byte, and its low 5 bits, which start the next. */
  lemma HeaderBytes(mode: nat, c0: nat, c1: nat, motorId: nat)
    requires mode < 32 && c0 < 256 && c1 < 256 && motorId < 256
    ensures var b := Mod256(HeaderOf(mode, c0, c1, motorId));
            && |b| == 4
            && b[0] == mode * 8 + c1 / 32
            && b[1] == (c1 % 32) * 8 + c0 / 32
            && b[2] == (c0 % 32) * 8 + motorId / 32
            && b[3] == (motorId % 32) * 8 + 4
  {
    HeaderAsSums(mode, c0, c1, motorId);
    SumsAsBytes(HeaderOf(mode, c0, c1, motorId), mode, c0, c1, motorId);
  }

  /** The shifts that place the identifier's fields. */
  lemma FieldShifts()
    ensures Pow2(3) == 8 && Pow2(8) == 0x100 && Pow2(16) == 0x1_0000 && Pow2(24) == 0x100_0000
  {
    assert Pow2(4) == 16;
    assert Pow2(8) == 16 * Pow2(4) by {
      assert Pow2(8) == 2 * 2 * 2 * 2 * Pow2(4);
    }
    assert Pow2(16) == 256 * Pow2(8) by {
      assert Pow2(16) == 2 * 2 * 2 * 2 * 2 * 2 * 2 * 2 * Pow2(8);
    }
    assert Pow2(24) == 256 * Pow2(16) by {
      assert Pow2(24) == 2 * 2 * 2 * 2 * 2 * 2 * 2 * 2 * Pow2(16);
    }
  }

  /** With every field in range, the identifier built with `|` from the
      shifted fields, then shifted left by 3 and tagged 0b100, is the sum form
      `ExtendedId * 8 + 4`: no two fields share a bit. */
  lemma ExtendedIdIsOr(mode: nat, c1: nat, c0: nat, motorId: nat)
    requires mode < 32 && c1 < 256 && c0 < 256 && motorId < 256
    ensures Or(Or(mode * 0x100_0000, Or(c1 * 0x1_0000, Or(c0 * 0x100, motorId))) * 8, 4) ==
            ExtendedId(mode, c1, c0, motorId) * 8 + 4
  {
    FieldShifts();
    var low := c0 * 0x100 + motorId;
    assert Or(c0 * 0x100, motorId) == low by {
      OrDisjoint(c0, motorId, 8);
    }
    var mid := c1 * 0x1_0000 + low;
    assert Or(c1 * 0x1_0000, low) == mid by {
      OrDisjoint(c1, low, 16);
    }
    var id := ExtendedId(mode, c1, c0, motorId);
    assert Or(mode * 0x100_0000, mid) == id by {
      OrDisjoint(mode, mid, 24);
    }
    OrDisjoint(id, 4, 3);
  }

  /** Read as bytes (each entry mod 256) and big-endian, the header is the
      extended identifier shifted left by 3 with the tag bits 0b100. */
  lemma HeaderPacking(mode: nat, c0: nat, c1: nat, motorId: nat)
    requires mode < 32 && c0 < 256 && c1 < 256 && motorId < 256
    ensures FromBE(Mod256(HeaderOf(mode, c0, c1, motorId))) == ExtendedId(mode, c1, c0, motorId) * 8 + 4
  {
    HeaderBytes(mode, c0, c1, motorId);
    FromBE4(Mod256(HeaderOf(mode, c0, c1, motorId)));
    assert c1 == 32 * (c1 / 32) + c1 % 32;
    assert c0 == 32 * (c0 / 32) + c0 % 32;
    assert motorId == 32 * (motorId / 32) + motorId % 32;
  }

  /** All four header entries are bytes exactly when `cmd_data[1]` and the
      motor id are below 32; otherwise lines 196 and 198 leave bits above bit 7. */
  lemma HeaderEntriesAreBytes(mode: nat, c0: nat, c1: nat, motorId: nat)
    requires mode < 32 && c0 < 256 && c1 < 256 && motorId < 256
    ensures (forall i :: 0 <= i < 4 ==> HeaderOf(mode, c0, c1, motorId)[i] < 256) <==> c1 < 32 && motorId < 32
  {
    HeaderAsSums(mode, c0, c1, motorId);
    var h := HeaderOf(mode, c0, c1, motorId);
    assert h[0] < 256 && h[2] < 256;
    assert h[1] < 256 <==> c1 < 32;
    assert h[3] < 256 <==> motorId < 32;
  }

  /** The fields of a feedback identifier: 5/2/6/8/8/3 bits, most significant first. */
  datatype FeedbackHeader = FeedbackHeader(
    comMode: nat, motorMode: nat, errorCode: nat,
    motorCanId: nat, masterCanId: nat, filledZero: nat)

  /** The feedback layout applied to four header bytes, by shifts and masks. */
  function ParseFeedbackHeader(b: seq<byte>): (h: FeedbackHeader)
    requires |b| == 4
    ensures h.comMode < 32 && h.motorMode < 4 && h.errorCode < 64
    ensures h.motorCanId < 256 && h.masterCanId < 256 && h.filledZero < 8
  {
    FeedbackHeader(
      b[0] / 8,
      (b[0] / 2) % 4,
      (b[0] % 2) * 32 + b[1] / 8,
      (b[1] % 8) * 32 + b[2] / 8,
      (b[2] % 8) * 32 + b[3] / 8,
      b[3] % 8)
  }

  /** The six fields reassemble the 32-bit big-endian word, most significant
      field first; with their widths this says each field is its bit range. */
  lemma FeedbackFieldsOfWord(b: seq<byte>)
    requires |b| == 4
    ensures var h := ParseFeedbackHeader(b);
      FromBE(b) == h.comMode * 0x800_0000 + h.motorMode * 0x200_0000 + h.errorCode * 0x8_0000
                   + h.motorCanId * 0x800 + h.masterCanId * 8 + h.filledZero
  {
    FromBE4(b);
  }

  /** A byte made of 5 high bits `a` and 3 low bits `e`. */
  lemma ByteCut(a: nat, e: nat)
    requires a < 32 && e < 8
    ensures (a * 8 + e) / 8 == a && (a * 8 + e) % 8 == e
    ensures ((a * 8 + e) / 2) % 4 == e / 2 && (a * 8 + e) % 2 == e % 2
  {
    assert (a * 8 + e) / 2 == a * 4 + e / 2;
  }

  /** The low 6 bits of a byte, cut after its top 3 bits. */
  lemma LowSix(c: nat)
    requires c < 256
    ensures (c / 32) / 2 == c / 64
    ensures ((c / 32) % 2) * 32 + c % 32 == c % 64
  {
  }

  /** The feedback layout applied to the four bytes of `HeaderBytes`. */
  lemma ParseCommandBytes(b: seq<byte>, mode: nat, c0: nat, c1: nat, motorId: nat)
    requires mode < 32 && c0 < 256 && c1 < 256 && motorId < 256
    requires |b| == 4
    requires b[0] == mode * 8 + c1 / 32 && b[1] == (c1 % 32) * 8 + c0 / 32
    requires b[2] == (c0 % 32) * 8 + motorId / 32 && b[3] == (motorId % 32) * 8 + 4
    ensures ParseFeedbackHeader(b) == FeedbackHeader(mode, c1 / 64, c1 % 64, c0, motorId, 4)
  {
    ByteCut(mode, c1 / 32);
    LowSix(c1);
    ByteCut(c1 % 32, c0 / 32);
    ByteCut(c0 % 32, motorId / 32);
    ByteCut(motorId % 32, 4);
  }

  /** A header built for a command parses back, under the feedback layout,
      to the command's mode, `cmd_data[1]` split 2/6, `cmd_data[0]`, the motor
      id and the tag 0b100. */
  lemma CommandHeaderParsesBack(mode: nat, c0: nat, c1: nat, motorId: nat)
    requires mode < 32 && c0 < 256 && c1 < 256 && motorId < 256
    ensures ParseFeedbackHeader(Mod256(HeaderOf(mode, c0, c1, motorId)))
         == FeedbackHeader(mode, c1 / 64, c1 % 64, c0, motorId, 4)
  {
    HeaderBytes(mode, c0, c1, motorId);
    ParseCommandBytes(Mod256(HeaderOf(mode, c0, c1, motorId)), mode, c0, c1, motorId);
  }
}
