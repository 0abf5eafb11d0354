/** `format_data`: typed scalars to and from little-endian bytes, driven by a
    space-separated list of type tags. */
module Codec {
  import opened Base
  import opened Bits

  // ---------------------------------------------------------------------------
  // `str.split()` with no argument

  /** ASCII whitespace as `str.split()` sees it. */
  predicate IsSpace(c: char)
  {
    var n := c as int;
    n == 32 || 9 <= n <= 13 || 28 <= n <= 31
  }

  /** The length of the run of non-whitespace at the start of `s`. */
  function TokenLength(s: string): (n: nat)
    ensures n <= |s|
    ensures forall i :: 0 <= i < n ==> !IsSpace(s[i])
    ensures n < |s| ==> IsSpace(s[n])
  {
    if s == [] || IsSpace(s[0]) then 0 else 1 + TokenLength(s[1..])
  }

  /** `s.split()`: the maximal runs of non-whitespace, in order. */
  function Words(s: string): (words: seq<string>)
    ensures |words| <= |s|
    ensures forall k :: 0 <= k < |words| ==> words[k] != [] && forall i :: 0 <= i < |words[k]| ==> !IsSpace(words[k][i])
    decreases |s|
  {
    if s == [] then []
    else if IsSpace(s[0]) then Words(s[1..])
    else [s[..TokenLength(s)]] + Words(s[TokenLength(s)..])
  }

  /** A string without whitespace is one run. */
  lemma TokenLengthOfToken(s: string)
    requires forall i :: 0 <= i < |s| ==> !IsSpace(s[i])
    ensures TokenLength(s) == |s|
  {
    if s != [] {
      TokenLengthOfToken(s[1..]);
    }
  }

  /** A non-empty string without whitespace splits into itself alone. */
  lemma WordsOfToken(s: string)
    requires s != [] && forall i :: 0 <= i < |s| ==> !IsSpace(s[i])
    ensures Words(s) == [s]
  {
    TokenLengthOfToken(s);
    assert s[..|s|] == s && s[|s|..] == [];
  }

  // ---------------------------------------------------------------------------
  // Type tags and scalars

  /** The seven tags `format_data` knows, with their `struct` codes
      B b H h I i f. */
  datatype Tag = U8 | S8 | U16 | S16 | U32 | S32 | F

  /** The tag a word names, if any, read character by character: `f`,
      `u8`, `s8`, `u16`, `s16`, `u32` or `s32`. This is `TagOfName` (see
      `ParseTagByName`) in the form the proofs use: comparing a word with
      string literals makes the solver reason about whole sequences, while
      this form looks at one character at a time. */
  function ParseTag(s: string): Option<Tag>
  {
    if |s| == 1 then
      if s[0] == 'f' then Some(F) else None
    else if |s| == 2 && s[1] == '8' then
      if s[0] == 'u' then Some(U8) else if s[0] == 's' then Some(S8) else None
    else if |s| == 3 && (s[0] == 'u' || s[0] == 's') then
      if s[1] == '1' && s[2] == '6' then (if s[0] == 'u' then Some(U16) else Some(S16))
      else if s[1] == '3' && s[2] == '2' then (if s[0] == 'u' then Some(U32) else Some(S32))
      else None
    else None
  }

  /** `format_data`'s chain of comparisons with the seven names. */
  function TagOfName(s: string): Option<Tag>
  {
    if s == "f" then Some(F)
    else if s == "u16" then Some(U16)
    else if s == "s16" then Some(S16)
    else if s == "u32" then Some(U32)
    else if s == "s32" then Some(S32)
    else if s == "u8" then Some(U8)
    else if s == "s8" then Some(S8)
    else None
  }

  /** Reading the word character by character agrees with comparing it
      against each name. */
  lemma ParseTagByName(s: string)
    ensures ParseTag(s) == TagOfName(s)
  {
    if |s| == 1 && s[0] == 'f' {
      assert s == "f";
    } else if |s| == 2 && s[1] == '8' && s[0] == 'u' {
      assert s == "u8";
    } else if |s| == 2 && s[1] == '8' && s[0] == 's' {
      assert s == "s8";
    } else if |s| == 3 && s[0] == 'u' && s[1] == '1' && s[2] == '6' {
      assert s == "u16";
    } else if |s| == 3 && s[0] == 's' && s[1] == '1' && s[2] == '6' {
      assert s == "s16";
    } else if |s| == 3 && s[0] == 'u' && s[1] == '3' && s[2] == '2' {
      assert s == "u32";
    } else if |s| == 3 && s[0] == 's' && s[1] == '3' && s[2] == '2' {
      assert s == "s32";
    }
  }

  /** How many bytes a tag consumes or produces. */
  function Width(t: Tag): nat
  {
    match t
    case U8 | S8 => 1
    case U16 | S16 => 2
    case U32 | S32 | F => 4
  }

  /** 256 to the power of the tag's width. */
  function Modulus(t: Tag): nat
  {
    match t
    case U8 | S8 => 0x100
    case U16 | S16 => 0x1_0000
    case U32 | S32 | F => 0x1_0000_0000
  }

  lemma ModulusIsPow256(t: Tag)
    ensures Pow256(Width(t)) == Modulus(t)
  {
    assert Pow256(1) == 0x100;
    assert Pow256(2) == 0x1_0000;
    assert Pow256(4) == 0x1_0000_0000;
  }

  /** A Python number as the model sees it: an integer, or a single-precision
      float kept as its IEEE-754 bit pattern (what `struct` packs for `f`). */
  datatype Value = Int(i: int) | Flt(bits: u32)

  /** `struct.pack` accepts the value for the tag: a float for `f`, an integer
      in the format's range otherwise. */
  predicate Fits(t: Tag, v: Value)
  {
    match t
    case F => v.Flt?
    case U8 | U16 | U32 => v.Int? && 0 <= v.i < Modulus(t)
    case S8 | S16 | S32 => v.Int? && -(Modulus(t) / 2) <= v.i < Modulus(t) / 2
  }

  /** `struct.unpack` of one field; every decoded value is in the tag's range. */
  function DecodeScalar(t: Tag, bs: seq<byte>): (v: Value)
    requires |bs| == Width(t)
    ensures Fits(t, v)
  {
    ModulusIsPow256(t);
    var n := FromLE(bs);
    match t
    case F => Flt(n)
    case U8 | U16 | U32 => Int(n)
    case S8 | S16 | S32 => Int(if n >= Modulus(t) / 2 then n - Modulus(t) else n)
  }

  /** `struct.pack` of one field: two's complement, least significant byte first. */
  function EncodeScalar(t: Tag, v: Value): (bs: seq<byte>)
    requires Fits(t, v)
    ensures |bs| == Width(t)
  {
    if t == F then ToLE(v.bits, 4)
    else ToLE(if v.i < 0 then v.i + Modulus(t) else v.i, Width(t))
  }

  /** Packing an integer and unpacking it with the same tag gives it back. */
  lemma ScalarRoundTrip(t: Tag, v: Value)
    requires t != F && Fits(t, v)
    ensures DecodeScalar(t, EncodeScalar(t, v)) == v
  {
    ModulusIsPow256(t);
    FromLEToLE(if v.i < 0 then v.i + Modulus(t) else v.i, Width(t));
  }

  // ---------------------------------------------------------------------------
  // Walking the tag list

  /** Where a walk over the tags ends: every tag handled, an unknown tag
      (after which `format_data` returns `[]`), or an exception. */
  datatype Scan<T> = Done(items: seq<T>) | UnknownTag | Failed(error: Exception)

  /** What is produced before a walk's remainder. */
  function Prepend<T>(xs: seq<T>, s: Scan<T>): Scan<T>
  {
    if s.Done? then Done(xs + s.items) else s
  }

  lemma PrependPrepend<T>(xs: seq<T>, ys: seq<T>, s: Scan<T>)
    ensures Prepend(xs, Prepend(ys, s)) == Prepend(xs + ys, s)
  {
    if s.Done? {
      assert xs + (ys + s.items) == (xs + ys) + s.items;
    }
  }

  predicate AllKnown(tags: seq<string>)
  {
    forall k :: 0 <= k < |tags| ==> ParseTag(tags[k]).Some?
  }

  /** The bytes the tags consume in all (an unknown tag counts 0). */
  function TotalWidth(tags: seq<string>): nat
  {
    if tags == [] then 0
    else (if ParseTag(tags[0]).Some? then Width(ParseTag(tags[0]).value) else 0) + TotalWidth(tags[1..])
  }

  /** Decoding from cursor `p`: each known tag reads its width of bytes at the
      cursor and moves the cursor past them; reading past the end of the data
      raises IndexError. */
  function DecodeScan(tags: seq<string>, data: seq<byte>, p: nat): Scan<Value>
    decreases |tags|
  {
    if tags == [] then Done([])
    else match ParseTag(tags[0])
      case None => UnknownTag
      case Some(t) =>
        if p + Width(t) > |data| then Failed(IndexError)
        else Prepend([DecodeScalar(t, data[p..p + Width(t)])], DecodeScan(tags[1..], data, p + Width(t)))
  }

  /** What `format_data(type="decode")` returns or raises after a walk. */
  function DecodeOutcome(s: Scan<Value>): Result<seq<Value>>
  {
    match s
    case Done(vs) => Ok(vs)
    case UnknownTag => Ok([])
    case Failed(e) => Raise(e)
  }

  /** The decoder's inner loop: `width` bytes from cursor `p`, or IndexError
      when the data ends first. */
  method ReadBytes(data: seq<byte>, p: nat, width: nat) returns (r: Result<seq<byte>>)
    requires p <= |data|
    ensures p + width <= |data| ==> r == Ok(data[p..p + width])
    ensures p + width > |data| ==> r == Raise(IndexError)
  {
    var ba: seq<byte> := [];
    var q := p;
    for i := 0 to width
      invariant q == p + i
      invariant q <= |data| && ba == data[p..q]
    {
      if q >= |data| {
        return Raise(IndexError);
      }
      ba := ba + [data[q]];
      q := q + 1;
    }
    r := Ok(ba);
  }

  /** `format_data(data, format, type="decode")` */
  method Decode(data: seq<byte>, format: string) returns (r: Result<seq<Value>>)
    ensures r == DecodeOutcome(DecodeScan(Words(format), data, 0))
  {
    var formatList := Words(format);
    var rdata: seq<Value> := [];
    var p: nat := 0;
    for k := 0 to |formatList|
      invariant p <= |data|
      invariant DecodeScan(formatList, data, 0) == Prepend(rdata, DecodeScan(formatList[k..], data, p))
    {
      DecodeAt(formatList, k, data, p);
      var tag := ParseTag(formatList[k]);
      if tag.None? {
        return Ok([]);
      }
      var width := Width(tag.value);
      var ba := ReadBytes(data, p, width);
      if ba.Raise? {
        return Raise(IndexError);
      }
      PrependPrepend(rdata, [DecodeScalar(tag.value, ba.value)], DecodeScan(formatList[k + 1..], data, p + width));
      rdata := rdata + [DecodeScalar(tag.value, ba.value)];
      p := p + width;
    }
    assert formatList[|formatList|..] == [] && rdata + [] == rdata;
    r := Ok(rdata);
  }

  /** One turn of the decoder's loop: what the walk does at tag `k`. */
  lemma DecodeAt(tags: seq<string>, k: nat, data: seq<byte>, p: nat)
    requires k < |tags|
    ensures ParseTag(tags[k]).None? ==> DecodeScan(tags[k..], data, p) == UnknownTag
    ensures ParseTag(tags[k]).Some? && p + Width(ParseTag(tags[k]).value) > |data| ==>
              DecodeScan(tags[k..], data, p) == Failed(IndexError)
    ensures var t := ParseTag(tags[k]);
            t.Some? && p + Width(t.value) <= |data| ==>
              DecodeScan(tags[k..], data, p) ==
                Prepend([DecodeScalar(t.value, data[p..p + Width(t.value)])], DecodeScan(tags[k + 1..], data, p + Width(t.value)))
  {
    assert tags[k..][0] == tags[k] && tags[k..][1..] == tags[k + 1..];
  }

  /** The value handed to each tag is of the tag's kind: a float for `f`, an
      integer for every other word. */
  predicate ValuesFit(tags: seq<string>, values: seq<Value>)
  {
    forall k :: 0 <= k < |tags| && k < |values| ==> (ParseTag(tags[k]) == Some(F) <==> values[k].Flt?)
  }

  lemma ValuesFitSuffix(tags: seq<string>, values: seq<Value>, k: nat)
    requires ValuesFit(tags, values) && k <= |tags| && k <= |values|
    ensures ValuesFit(tags[k..], values[k..])
  {
    forall j | 0 <= j < |tags[k..]| && j < |values[k..]|
      ensures ParseTag(tags[k..][j]) == Some(F) <==> values[k..][j].Flt?
    {
      assert tags[k..][j] == tags[k + j] && values[k..][j] == values[k + j];
    }
  }

  /** Encoding: each tag packs its value; an integer out of the format's range
      raises `struct.error`. */
  function EncodeScan(tags: seq<string>, values: seq<Value>): Scan<byte>
    requires |tags| == |values| && ValuesFit(tags, values)
    decreases |tags|
  {
    if tags == [] then Done([])
    else match ParseTag(tags[0])
      case None => UnknownTag
      case Some(t) =>
        if !Fits(t, values[0]) then Failed(StructError)
        else
          ValuesFitSuffix(tags, values, 1);
          Prepend(EncodeScalar(t, values[0]), EncodeScan(tags[1..], values[1..]))
  }

  /** The packed bytes, padded with zeros to at least four. */
  function Padded(bs: seq<byte>): seq<byte>
  {
    if |bs| < 4 then bs + Zeros(4 - |bs|) else bs
  }

  /** What `format_data(type="encode")` returns or raises: `None` when the
      numbers of tags and values differ, `[]` after an unknown tag. */
  function EncodeOutcome(tags: seq<string>, values: seq<Value>): Result<Option<seq<byte>>>
    requires ValuesFit(tags, values)
  {
    if |tags| != |values| then Ok(None)
    else match EncodeScan(tags, values)
      case Done(bs) => Ok(Some(Padded(bs)))
      case UnknownTag => Ok(Some([]))
      case Failed(e) => Raise(e)
  }

  /** Appending a packed field byte by byte, as the encoder's inner loop does. */
  method AppendBytes(rdata: seq<byte>, bs: seq<byte>) returns (r: seq<byte>)
    ensures r == rdata + bs
  {
    r := rdata;
    for j := 0 to |bs|
      invariant r == rdata + bs[..j]
    {
      r := r + [bs[j]];
    }
    assert bs[..|bs|] == bs;
  }

  /** Appending zeros until there are four bytes. */
  method PadBytes(rdata: seq<byte>) returns (r: seq<byte>)
    ensures r == Padded(rdata)
  {
    r := rdata;
    if |rdata| < 4 {
      var missing := 4 - |rdata|;
      for i := 0 to missing
        invariant r == rdata + Zeros(i)
      {
        assert Zeros(i + 1) == Zeros(i) + [0];
        r := r + [0];
      }
    }
  }

  /** `format_data(data, format, type="encode")` */
  method Encode(values: seq<Value>, format: string) returns (r: Result<Option<seq<byte>>>)
    requires ValuesFit(Words(format), values)
    ensures r == EncodeOutcome(Words(format), values)
  {
    var formatList := Words(format);
    if |formatList| != |values| {
      return Ok(None);
    }
    var rdata: seq<byte> := [];
    for k := 0 to |formatList|
      invariant ValuesFit(formatList[k..], values[k..])
      invariant EncodeScan(formatList, values) == Prepend(rdata, EncodeScan(formatList[k..], values[k..]))
    {
      ghost var tags, vals := formatList[k..], values[k..];
      assert tags[0] == formatList[k] && tags[1..] == formatList[k + 1..];
      assert vals[0] == values[k] && vals[1..] == values[k + 1..];
      var tag := ParseTag(formatList[k]);
      if tag.None? {
        assert EncodeScan(tags, vals) == UnknownTag;
        return Ok(Some([]));
      }
      if !Fits(tag.value, values[k]) {
        assert EncodeScan(tags, vals) == Failed(StructError);
        return Raise(StructError);
      }
      EncodeScanStep(tags, vals);
      var bs := EncodeScalar(tag.value, values[k]);
      ghost var before := rdata;
      rdata := AppendBytes(rdata, bs);
      PrependPrepend(before, bs, EncodeScan(tags[1..], vals[1..]));
    }
    assert formatList[|formatList|..] == [] && values[|values|..] == [] && rdata + [] == rdata;
    assert EncodeScan(formatList, values) == Done(rdata);
    rdata := PadBytes(rdata);
    r := Ok(Some(rdata));
  }

  // ---------------------------------------------------------------------------
  // Properties of the walks

  /** Every tag is known and is handed a value it can pack. */
  predicate AllFit(tags: seq<string>, values: seq<Value>)
  {
    forall k :: 0 <= k < |tags| && k < |values| ==>
      ParseTag(tags[k]).Some? && Fits(ParseTag(tags[k]).value, values[k])
  }

  /** Every tag is an integer tag. */
  predicate NoFloatTag(tags: seq<string>)
  {
    forall k :: 0 <= k < |tags| ==> ParseTag(tags[k]) != Some(F)
  }

  lemma TagsTail(tags: seq<string>)
    requires |tags| > 0
    ensures AllKnown(tags) <==> ParseTag(tags[0]).Some? && AllKnown(tags[1..])
    ensures NoFloatTag(tags) <==> ParseTag(tags[0]) != Some(F) && NoFloatTag(tags[1..])
  {
    assert forall k :: 0 <= k < |tags| - 1 ==> tags[1..][k] == tags[k + 1];
    if ParseTag(tags[0]).Some? && AllKnown(tags[1..]) {
      forall k | 0 <= k < |tags| ensures ParseTag(tags[k]).Some? {
        if k > 0 { assert tags[k] == tags[1..][k - 1]; }
      }
    }
    if ParseTag(tags[0]) != Some(F) && NoFloatTag(tags[1..]) {
      forall k | 0 <= k < |tags| ensures ParseTag(tags[k]) != Some(F) {
        if k > 0 { assert tags[k] == tags[1..][k - 1]; }
      }
    }
  }

  lemma FitTail(tags: seq<string>, values: seq<Value>)
    requires |tags| == |values| > 0
    ensures AllFit(tags, values) <==>
      ParseTag(tags[0]).Some? && Fits(ParseTag(tags[0]).value, values[0]) && AllFit(tags[1..], values[1..])
  {
    assert forall k :: 0 <= k < |tags| - 1 ==> tags[1..][k] == tags[k + 1] && values[1..][k] == values[k + 1];
    if ParseTag(tags[0]).Some? && Fits(ParseTag(tags[0]).value, values[0]) && AllFit(tags[1..], values[1..]) {
      forall k | 0 <= k < |tags| ensures ParseTag(tags[k]).Some? && Fits(ParseTag(tags[k]).value, values[k]) {
        if k > 0 { assert tags[k] == tags[1..][k - 1] && values[k] == values[1..][k - 1]; }
      }
    }
  }

  /** One step of the decoding walk: a known head tag with its bytes present. */
  lemma DecodeScanStep(tags: seq<string>, data: seq<byte>, p: nat)
    requires tags != [] && ParseTag(tags[0]).Some?
    requires p + Width(ParseTag(tags[0]).value) <= |data|
    ensures var t := ParseTag(tags[0]).value;
            DecodeScan(tags, data, p) ==
              Prepend([DecodeScalar(t, data[p..p + Width(t)])], DecodeScan(tags[1..], data, p + Width(t)))
    ensures TotalWidth(tags) == Width(ParseTag(tags[0]).value) + TotalWidth(tags[1..])
  {
  }

  /** Decoding handles every tag exactly when every tag is known and the
      data holds all their bytes; it then yields one value per tag. */
  lemma {:induction false} DecodeScanSucceeds(tags: seq<string>, data: seq<byte>, p: nat)
    requires p <= |data|
    ensures DecodeScan(tags, data, p).Done? <==> AllKnown(tags) && p + TotalWidth(tags) <= |data|
    ensures DecodeScan(tags, data, p).Done? ==> |DecodeScan(tags, data, p).items| == |tags|
    decreases |tags|
  {
    if tags != [] {
      TagsTail(tags);
      if ParseTag(tags[0]).Some? {
        var w := Width(ParseTag(tags[0]).value);
        assert TotalWidth(tags) == w + TotalWidth(tags[1..]);
        if p + w <= |data| {
          DecodeScanStep(tags, data, p);
          DecodeScanSucceeds(tags[1..], data, p + w);
        } else {
          assert DecodeScan(tags, data, p) == Failed(IndexError);
        }
      } else {
        assert DecodeScan(tags, data, p) == UnknownTag;
      }
    }
  }

  /** The k-th decoded value is the k-th tag applied to the bytes that start
      at `off`, where the widths of the tags before it end: the cursor moves
      by exactly each tag's width. */
  lemma {:induction false} DecodeScanItems(tags: seq<string>, data: seq<byte>, p: nat, k: nat, off: nat)
    requires p <= |data| && DecodeScan(tags, data, p).Done? && k < |tags|
    requires off == p + TotalWidth(tags[..k])
    ensures ParseTag(tags[k]).Some?
    ensures var t := ParseTag(tags[k]).value;
            var items := DecodeScan(tags, data, p).items;
            off + Width(t) <= |data| && k < |items| && items[k] == DecodeScalar(t, Field(data, off, t))
    decreases k
  {
    DecodeScanDone(tags, data, p);
    var w := Width(ParseTag(tags[0]).value);
    if k == 0 {
      assert tags[..0] == [];
    } else {
      TotalWidthPrefix(tags, k);
      DecodeScanItems(tags[1..], data, p + w, k - 1, off);
      assert tags[1..][k - 1] == tags[k];
    }
  }

  /** The bytes a tag reads at offset `off`. */
  function Field(data: seq<byte>, off: nat, t: Tag): (f: seq<byte>)
    requires off + Width(t) <= |data|
    ensures |f| == Width(t)
  {
    data[off..off + Width(t)]
  }

  /** A walk that handled every tag handled the head tag first. */
  lemma DecodeScanDone(tags: seq<string>, data: seq<byte>, p: nat)
    requires DecodeScan(tags, data, p).Done? && tags != []
    ensures ParseTag(tags[0]).Some?
    ensures var w := Width(ParseTag(tags[0]).value);
            && p + w <= |data|
            && DecodeScan(tags[1..], data, p + w).Done?
            && DecodeScan(tags, data, p).items ==
                 [DecodeScalar(ParseTag(tags[0]).value, data[p..p + w])] + DecodeScan(tags[1..], data, p + w).items
  {
  }

  /** The widths before position `k` are the head's width and the widths
      before position `k - 1` of the tail. */
  lemma TotalWidthPrefix(tags: seq<string>, k: nat)
    requires 0 < k <= |tags|
    ensures TotalWidth(tags[..k]) ==
      (if ParseTag(tags[0]).Some? then Width(ParseTag(tags[0]).value) else 0) + TotalWidth(tags[1..][..k - 1])
  {
    assert tags[..k][0] == tags[0] && tags[..k][1..] == tags[1..][..k - 1];
  }

  /** After an unknown tag decoding never yields values: it returns `[]`,
      unless a known tag before it already ran past the data. With four bytes
      per tag available, it returns `[]`. */
  lemma {:induction false} DecodeUnknownTag(tags: seq<string>, data: seq<byte>, p: nat)
    requires !AllKnown(tags)
    ensures DecodeScan(tags, data, p) == UnknownTag || DecodeScan(tags, data, p) == Failed(IndexError)
    ensures p + 4 * |tags| <= |data| ==> DecodeScan(tags, data, p) == UnknownTag
    decreases |tags|
  {
    TagsTail(tags);
    if ParseTag(tags[0]).Some? {
      var w := Width(ParseTag(tags[0]).value);
      if p + w <= |data| {
        DecodeUnknownTag(tags[1..], data, p + w);
      }
    }
  }

  /** Encoding packs every tag exactly when every tag is known and every
      value fits its tag; the bytes are then the tags' widths in all. */
  lemma {:induction false} EncodeScanSucceeds(tags: seq<string>, values: seq<Value>)
    requires |tags| == |values| && ValuesFit(tags, values)
    ensures EncodeScan(tags, values).Done? <==> AllFit(tags, values)
    ensures EncodeScan(tags, values).Done? ==> |EncodeScan(tags, values).items| == TotalWidth(tags)
    decreases |tags|
  {
    if tags != [] {
      TagsTail(tags);
      FitTail(tags, values);
      ValuesFitSuffix(tags, values, 1);
      EncodeScanSucceeds(tags[1..], values[1..]);
    }
  }

  /** Every known tag is handed a value it can pack. */
  predicate KnownFit(tags: seq<string>, values: seq<Value>)
    requires |tags| == |values|
  {
    forall k :: 0 <= k < |tags| && ParseTag(tags[k]).Some? ==> Fits(ParseTag(tags[k]).value, values[k])
  }

  /** After an unknown tag encoding never yields bytes: it returns `[]`,
      unless a value before it is out of range; when every known tag's value
      fits, it returns `[]`. */
  lemma {:induction false} EncodeUnknownTag(tags: seq<string>, values: seq<Value>)
    requires |tags| == |values| && ValuesFit(tags, values) && !AllKnown(tags)
    ensures EncodeScan(tags, values) == UnknownTag || EncodeScan(tags, values) == Failed(StructError)
    ensures KnownFit(tags, values) ==> EncodeScan(tags, values) == UnknownTag
    decreases |tags|
  {
    TagsTail(tags);
    if ParseTag(tags[0]).Some? && Fits(ParseTag(tags[0]).value, values[0]) {
      EncodeScanStep(tags, values);
      EncodeUnknownTag(tags[1..], values[1..]);
      if KnownFit(tags, values) {
        forall k | 0 <= k < |tags| - 1 && ParseTag(tags[1..][k]).Some?
          ensures Fits(ParseTag(tags[1..][k]).value, values[1..][k])
        {
          assert tags[1..][k] == tags[k + 1] && values[1..][k] == values[k + 1];
        }
      }
    }
  }

  /** One step of the encoding walk: a known head tag whose value fits. */
  lemma EncodeScanStep(tags: seq<string>, values: seq<Value>)
    requires |tags| == |values| > 0 && ValuesFit(tags, values)
    requires ParseTag(tags[0]).Some? && Fits(ParseTag(tags[0]).value, values[0])
    ensures ValuesFit(tags[1..], values[1..])
    ensures EncodeScan(tags, values) ==
      Prepend(EncodeScalar(ParseTag(tags[0]).value, values[0]), EncodeScan(tags[1..], values[1..]))
  {
    ValuesFitSuffix(tags, values, 1);
  }

  /** Where the second of four concatenated pieces sits. */
  lemma PieceAt<T>(pre: seq<T>, head: seq<T>, tail: seq<T>, rest: seq<T>)
    ensures pre + (head + tail) + rest == (pre + head) + tail + rest
    ensures (pre + (head + tail) + rest)[|pre|..|pre| + |head|] == head
  {
    assert pre + (head + tail) + rest == (pre + head) + tail + rest;
  }

  /** Integers packed with integer tags are unpacked, from wherever the
      packed bytes sit, to the same integers. */
  lemma {:induction false} EncodeThenDecode(tags: seq<string>, values: seq<Value>, pre: seq<byte>, rest: seq<byte>)
    requires |tags| == |values| && ValuesFit(tags, values)
    requires AllFit(tags, values) && NoFloatTag(tags)
    ensures EncodeScan(tags, values).Done?
    ensures DecodeScan(tags, pre + EncodeScan(tags, values).items + rest, |pre|) == Done(values)
    decreases |tags|
  {
    EncodeScanSucceeds(tags, values);
    if tags == [] {
      assert values == [];
    } else {
      TagsTail(tags);
      FitTail(tags, values);
      EncodeScanStep(tags, values);
      var t := ParseTag(tags[0]).value;
      var head := EncodeScalar(t, values[0]);
      EncodeScanSucceeds(tags[1..], values[1..]);
      var tail := EncodeScan(tags[1..], values[1..]).items;
      assert EncodeScan(tags, values).items == head + tail;
      EncodeThenDecode(tags[1..], values[1..], pre + head, rest);
      DecodePieces(tags, values, pre, head, tail, rest);
    }
  }

  /** The step of `EncodeThenDecode`: the first tag decodes its own packed
      bytes back to its value, and the rest decodes from just after them. */
  lemma DecodePieces(tags: seq<string>, values: seq<Value>, pre: seq<byte>, head: seq<byte>, tail: seq<byte>, rest: seq<byte>)
    requires tags != [] && |values| == |tags| && ParseTag(tags[0]).Some? && ParseTag(tags[0]).value != F
    requires Fits(ParseTag(tags[0]).value, values[0]) && head == EncodeScalar(ParseTag(tags[0]).value, values[0])
    requires DecodeScan(tags[1..], pre + head + tail + rest, |pre + head|) == Done(values[1..])
    ensures DecodeScan(tags, pre + (head + tail) + rest, |pre|) == Done(values)
  {
    var data := pre + (head + tail) + rest;
    PieceAt(pre, head, tail, rest);
    DecodeHead(tags, values, data, |pre|, head);
  }

  /** The first tag, finding its own packed bytes at the cursor, decodes
      them back to its value ahead of what the rest decodes. */
  lemma DecodeHead(tags: seq<string>, values: seq<Value>, data: seq<byte>, p: nat, head: seq<byte>)
    requires tags != [] && |values| == |tags| && ParseTag(tags[0]).Some? && ParseTag(tags[0]).value != F
    requires Fits(ParseTag(tags[0]).value, values[0]) && head == EncodeScalar(ParseTag(tags[0]).value, values[0])
    requires p + |head| <= |data| && data[p..p + |head|] == head
    requires DecodeScan(tags[1..], data, p + |head|) == Done(values[1..])
    ensures DecodeScan(tags, data, p) == Done(values)
  {
    var t := ParseTag(tags[0]).value;
    ScalarRoundTrip(t, values[0]);
    DecodeScanStep(tags, data, p);
    assert [values[0]] + values[1..] == values;
  }

  /** Each tag name splits into itself alone. */
  lemma WordsOfTagName(s: string)
    requires ParseTag(s).Some?
    ensures Words(s) == [s]
  {
    WordsOfToken(s);
  }

  /** One in-range integer with an integer tag encodes to exactly four bytes:
      its little-endian bytes, then zeros; decoding them with the same tag
      gives the integer back. */
  lemma EncodeOneInteger(s: string, v: int)
    requires ParseTag(s).Some? && ParseTag(s).value != F && Fits(ParseTag(s).value, Int(v))
    ensures ValuesFit(Words(s), [Int(v)])
    ensures var t := ParseTag(s).value;
            var bytes := EncodeScalar(t, Int(v)) + Zeros(4 - Width(t));
            |bytes| == 4 &&
            EncodeOutcome(Words(s), [Int(v)]) == Ok(Some(bytes)) &&
            DecodeOutcome(DecodeScan(Words(s), bytes, 0)) == Ok([Int(v)])
  {
    WordsOfTagName(s);
    var t := ParseTag(s).value;
    var enc := EncodeScalar(t, Int(v));
    assert EncodeScan([s], [Int(v)]) == Done(enc) by {
      assert [s][1..] == [] && [Int(v)][1..] == [];
      assert enc + [] == enc;
    }
    EncodeThenDecode([s], [Int(v)], [], Zeros(4 - Width(t)));
    assert [] + enc + Zeros(4 - Width(t)) == enc + Zeros(4 - Width(t));
  }

  /** One value under a known tag: `struct.error` when the value is out of
      the tag's range, otherwise its packed bytes padded to exactly four. */
  lemma EncodeOne(s: string, v: Value)
    requires ParseTag(s).Some? && ValuesFit([s], [v])
    ensures Words(s) == [s]
    ensures var t := ParseTag(s).value;
            && (Fits(t, v) ==> EncodeOutcome([s], [v]) == Ok(Some(EncodeScalar(t, v) + Zeros(4 - Width(t)))))
            && (!Fits(t, v) ==> EncodeOutcome([s], [v]) == Raise(StructError))
  {
    WordsOfTagName(s);
    var t := ParseTag(s).value;
    if Fits(t, v) {
      var enc := EncodeScalar(t, v);
      assert [s][1..] == [] && [v][1..] == [];
      assert EncodeScan([s], [v]) == Done(enc) by {
        assert enc + [] == enc;
      }
      if Width(t) == 4 {
        assert enc + Zeros(0) == enc;
      }
    }
  }

  /** Four bytes decoded with `f` give the single float whose bit pattern
      they hold, least significant byte first. */
  lemma DecodeOneFloat(b: seq<byte>)
    requires |b| == 4
    ensures FromLE(b) < 0x1_0000_0000
    ensures DecodeOutcome(DecodeScan(Words("f"), b, 0)) == Ok([Flt(FromLE(b))])
  {
    WordsOfTagName("f");
    ModulusIsPow256(F);
    assert ["f"][1..] == [] && b[0..4] == b;
    DecodeScanStep(["f"], b, 0);
    assert DecodeScan(["f"], b, 0) == Done([Flt(FromLE(b))]);
  }
}
