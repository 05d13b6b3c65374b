/**
 * Request ids: 16 packed bytes (version, site and environment tags, second, broker slot,
 * five random bytes) written as 26 characters of Crockford's Base32 in lower case.
 */
module RequestId {
  import opened Wrappers
  import opened Radix

  type u8 = x: nat | x < 0x100
  type u16 = x: nat | x < 0x1_0000
  type u32 = x: nat | x < 0x1_0000_0000

  datatype DecodeError =
    | WrongLength(actual: nat)
    | DisallowedCrockfordCharacter(ch: char)
    | Base32ValueOutOfRange
    | UnknownVersion(version: nat)
    | TagPackedValueOutOfRange(value: nat)
    | EmptyPackedTag
    | EmbeddedSentinel

  datatype EncodeError =
    | EmptyTag
    | TagTooLong(actual: nat)
    | InvalidTagCharacter(ch: char)
    | TimestampBeforeCustomEpoch
    | TimestampTooLarge

  const ID_VERSION: u8 := 1
  const ID_LEN := 26
  const PACKED_LEN := 16
  const SENTINEL := 36
  const RADIX := 37
  const TWO_TO_128: nat := 0x1_0000_0000_0000_0000_0000_0000_0000_0000

  // Timestamps are nanoseconds since the Unix epoch; ids count seconds since 2025-01-01T00:00:00Z.
  const SECOND := 1_000_000_000
  const CUSTOM_EPOCH := 1_735_689_600 * SECOND

  datatype Decoded = Decoded(version: nat, site: string, env: string, timestamp: int, slot: nat, random: seq<nat>)

  // ------------------------------------------------------------------- tags

  predicate IsTagChar(ch: char) {
    '0' <= ch <= '9' || 'a' <= ch <= 'z'
  }

  function TagCharValue(ch: char): (v: nat)
    requires IsTagChar(ch)
    ensures v < SENTINEL && ValueChar(v) == ch
  {
    if '0' <= ch <= '9' then ch as int - '0' as int else ch as int - 'a' as int + 10
  }

  function ValueChar(v: nat): (ch: char)
    requires v < SENTINEL
    ensures IsTagChar(ch)
  {
    if v <= 9 then ('0' as int + v) as char else ('a' as int + (v - 10)) as char
  }

  lemma ValueCharInverse(v: nat)
    requires v < SENTINEL
    ensures TagCharValue(ValueChar(v)) == v
  {
  }

  /** Digits count 0 to 9 and letters 10 to 35, both ways. */
  lemma SymbolOrder(k: nat)
    ensures k < 10 ==> TagCharValue(('0' as int + k) as char) == k && ValueChar(k) == ('0' as int + k) as char
    ensures k < 26 ==> TagCharValue(('a' as int + k) as char) == 10 + k && ValueChar(10 + k) == ('a' as int + k) as char
  {
  }

  predicate ValidTag(tag: string) {
    1 <= |tag| <= 3 && forall i | 0 <= i < |tag| :: IsTagChar(tag[i])
  }

  /** The tag's three base-37 digits, padded with the sentinel. */
  function TagDigits(tag: string): (ds: seq<nat>)
    requires ValidTag(tag)
    ensures |ds| == 3 && forall i | 0 <= i < 3 :: ds[i] < RADIX
  {
    seq(3, i requires 0 <= i < 3 => if i < |tag| then TagCharValue(tag[i]) else SENTINEL)
  }

  function FirstBad(tag: string): (ch: char)
    requires exists i :: 0 <= i < |tag| && !IsTagChar(tag[i])
  {
    if !IsTagChar(tag[0]) then tag[0] else FirstBad(tag[1..])
  }

  function Pack(tag: string): Result<nat, EncodeError> {
    if tag == "" then Err(EmptyTag)
    else if |tag| > 3 then Err(TagTooLong(|tag|))
    else if !ValidTag(tag) then Err(InvalidTagCharacter(FirstBad(tag)))
    else Ok(Value(TagDigits(tag), RADIX))
  }

  /** The value fits 16 bits: base 37 to the third is 50653. */
  lemma PackFits(tag: string)
    requires ValidTag(tag)
    ensures Value(TagDigits(tag), RADIX) < 50653
  {
    DigitsOfValue(TagDigits(tag), RADIX);
    assert Pow(RADIX, 3) == 50653;
  }

  method PackTag(tag: string) returns (r: Result<nat, EncodeError>)
    ensures r == Pack(tag)
    ensures r.Ok? ==> r.value < 50653
  {
    var len := |tag|;
    if len == 0 { return Err(EmptyTag); }
    if len > 3 { return Err(TagTooLong(len)); }
    var digits := new nat[3](_ => SENTINEL);
    for i := 0 to |tag|
      invariant forall k | 0 <= k < i :: IsTagChar(tag[k])
      invariant forall k | 0 <= k < 3 :: digits[k] == if k < i then TagCharValue(tag[k]) else SENTINEL
    {
      if !IsTagChar(tag[i]) {
        FirstBadAt(tag, i);
        return Err(InvalidTagCharacter(tag[i]));
      }
      digits[i] := TagCharValue(tag[i]);
    }
    assert digits[..] == TagDigits(tag);
    ThreeDigits(digits[..]);
    PackFits(tag);
    r := Ok(digits[0] * RADIX * RADIX + digits[1] * RADIX + digits[2]);
  }

  lemma {:induction false} FirstBadAt(tag: string, i: nat)
    requires i < |tag| && !IsTagChar(tag[i]) && forall k | 0 <= k < i :: IsTagChar(tag[k])
    ensures FirstBad(tag) == tag[i]
  {
    if i > 0 {
      assert tag[1..][i - 1] == tag[i];
      FirstBadAt(tag[1..], i - 1);
    }
  }

  lemma ThreeDigits(ds: seq<nat>)
    requires |ds| == 3
    ensures Value(ds, RADIX) == ds[0] * RADIX * RADIX + ds[1] * RADIX + ds[2]
  {
    assert ds[..2] == [ds[0], ds[1]] && [ds[0], ds[1]][..1] == [ds[0]] && [ds[0]][..0] == [];
    assert Value([ds[0]], RADIX) == ds[0];
    assert Value([ds[0], ds[1]], RADIX) == ds[0] * RADIX + ds[1];
  }

  /** Chars of the digits before the first sentinel. */
  function Unpack(value: nat): Result<string, DecodeError> {
    if value >= RADIX * RADIX * RADIX then Err(TagPackedValueOutOfRange(value)) else
      var a, b, c := value / (RADIX * RADIX), (value / RADIX) % RADIX, value % RADIX;
      if a == SENTINEL then Err(EmptyPackedTag)
      else if b == SENTINEL then
        if c != SENTINEL then Err(EmbeddedSentinel) else Ok([ValueChar(a)])
      else if c == SENTINEL then Ok([ValueChar(a), ValueChar(b)])
      else Ok([ValueChar(a), ValueChar(b), ValueChar(c)])
  }

  lemma UnpackDigits(value: nat)
    requires value < RADIX * RADIX * RADIX
    ensures Digits(value, RADIX, 3) == [value / (RADIX * RADIX), (value / RADIX) % RADIX, value % RADIX]
  {
    assert Digits(value, RADIX, 3) == Digits(value / RADIX, RADIX, 2) + [value % RADIX];
    assert Digits(value / RADIX, RADIX, 2) == Digits(value / RADIX / RADIX, RADIX, 1) + [(value / RADIX) % RADIX];
    assert Digits(value / RADIX / RADIX, RADIX, 1) == [] + [(value / RADIX / RADIX) % RADIX];
  }

  /** A packed tag unpacks to itself. */
  lemma UnpackPack(tag: string)
    requires ValidTag(tag)
    ensures Unpack(Value(TagDigits(tag), RADIX)) == Ok(tag)
  {
    var ds := TagDigits(tag);
    PackFits(tag);
    DigitsOfValue(ds, RADIX);
    var v := Value(ds, RADIX);
    UnpackDigits(v);
    assert ds[0] == v / (RADIX * RADIX) && ds[1] == (v / RADIX) % RADIX && ds[2] == v % RADIX;
    assert tag == if |tag| == 1 then [tag[0]] else if |tag| == 2 then [tag[0], tag[1]] else [tag[0], tag[1], tag[2]];
  }

  /** An unpacked value packs to itself. */
  lemma PackUnpack(value: nat)
    requires Unpack(value).Ok?
    ensures var tag := Unpack(value).value;
            ValidTag(tag) && Value(TagDigits(tag), RADIX) == value
  {
    var tag := Unpack(value).value;
    UnpackDigits(value);
    var ds := Digits(value, RADIX, 3);
    forall i | 0 <= i < |tag| ensures IsTagChar(tag[i]) && TagCharValue(tag[i]) == ds[i] { ValueCharInverse(ds[i]); }
    assert TagDigits(tag) == ds;
    assert Pow(RADIX, 3) == 50653;
    ValueOfDigits(value, RADIX, 3);
  }

  // --------------------------------------------------------------- timestamps

  function Seconds(timestamp: int): Result<nat, EncodeError> {
    if timestamp < CUSTOM_EPOCH then Err(TimestampBeforeCustomEpoch)
    else
      var s := (timestamp - CUSTOM_EPOCH) / SECOND;
      if s < 0x1_0000_0000 then Ok(s) else Err(TimestampTooLarge)
  }

  /** What an id keeps of a timestamp: its whole second. */
  function WholeSecond(timestamp: int): int {
    timestamp - (timestamp - CUSTOM_EPOCH) % SECOND
  }

  // ------------------------------------------------------------------- packing

  /** Big-endian fields in their fixed places. */
  function PackedBytes(site: nat, env: nat, sec: nat, slot: nat, random: seq<nat>): seq<nat> {
    [ID_VERSION] + Digits(site, 256, 2) + Digits(env, 256, 2) + Digits(sec, 256, 4) + Digits(slot, 256, 2) + random
  }

  lemma ByteSizes()
    ensures Pow(256, 2) == 0x1_0000 && Pow(256, 4) == 0x1_0000_0000
  {
  }

  lemma TwoTo128()
    ensures Pow(256, 16) == TWO_TO_128 && TWO_TO_128 <= Pow(32, 26)
  {
    assert Pow(256, 4) == 0x1_0000_0000;
    assert Pow(256, 8) == 0x1_0000_0000_0000_0000;
    assert Pow(256, 12) == 0x1_0000_0000_0000_0000_0000_0000;
    assert Pow(32, 8) == 0x100_0000_0000;
    assert Pow(32, 16) == 0x1_0000_0000_0000_0000_0000;
    assert Pow(32, 24) == 0x100_0000_0000_0000_0000_0000_0000_0000;
  }

  lemma FieldSlices(site: nat, env: nat, sec: nat, slot: nat, random: seq<nat>)
    requires |random| == 5
    ensures var p := PackedBytes(site, env, sec, slot, random);
            && |p| == PACKED_LEN && p[0] == ID_VERSION
            && p[1..3] == Digits(site, 256, 2) && p[3..5] == Digits(env, 256, 2)
            && p[5..9] == Digits(sec, 256, 4) && p[9..11] == Digits(slot, 256, 2) && p[11..16] == random
  {
  }

  lemma Slices(p: seq<nat>)
    requires |p| == PACKED_LEN
    ensures p == [p[0]] + p[1..3] + p[3..5] + p[5..9] + p[9..11] + p[11..16]
  {
  }

  lemma SliceDigits(p: seq<nat>, lo: nat, hi: nat)
    requires lo <= hi <= |p| && forall i | 0 <= i < |p| :: p[i] < 256
    ensures Digits(Value(p[lo..hi], 256), 256, hi - lo) == p[lo..hi] && Value(p[lo..hi], 256) < Pow(256, hi - lo)
  {
    DigitsOfValue(p[lo..hi], 256);
  }

  /** The bytes the decoder takes apart pack to themselves. */
  lemma SplitJoin(p: seq<nat>)
    requires |p| == PACKED_LEN && p[0] == ID_VERSION && forall i | 0 <= i < |p| :: p[i] < 256
    ensures p == PackedBytes(Value(p[1..3], 256), Value(p[3..5], 256), Value(p[5..9], 256), Value(p[9..11], 256), p[11..16])
    ensures Value(p[5..9], 256) < 0x1_0000_0000 && Value(p[9..11], 256) < 0x1_0000
  {
    ByteSizes();
    SliceDigits(p, 1, 3);
    SliceDigits(p, 3, 5);
    SliceDigits(p, 5, 9);
    SliceDigits(p, 9, 11);
    Slices(p);
  }

  /** The decoder's timestamps are whole seconds, which the encoder keeps. */
  lemma SecondsKept(sec: nat)
    requires sec < 0x1_0000_0000
    ensures Seconds(CUSTOM_EPOCH + sec * SECOND) == Ok(sec)
  {
  }

  /** Taking the bytes apart; the error cases in the order they are checked. */
  function Fields(p: seq<nat>): Result<Decoded, DecodeError>
    requires |p| == PACKED_LEN
  {
    if p[0] != ID_VERSION then Err(UnknownVersion(p[0])) else
      var site := Unpack(Value(p[1..3], 256));
      if site.Err? then Err(site.error) else
        var env := Unpack(Value(p[3..5], 256));
        if env.Err? then Err(env.error) else
          Ok(Decoded(p[0], site.value, env.value, CUSTOM_EPOCH + Value(p[5..9], 256) * SECOND,
                     Value(p[9..11], 256), p[11..16]))
  }

  /** The bytes of an id, or the first reason there are none. */
  function Bytes(site: string, env: string, slot: u16, timestamp: int, random: seq<u8>): Result<seq<nat>, EncodeError>
    requires |random| == 5
  {
    var s := Pack(site);
    if s.Err? then Err(s.error) else
      var e := Pack(env);
      if e.Err? then Err(e.error) else
        var t := Seconds(timestamp);
        if t.Err? then Err(t.error) else
          Ok(PackedBytes(s.value, e.value, t.value, slot, random))
  }

  lemma WholeSeconds(timestamp: int)
    requires Seconds(timestamp).Ok?
    ensures CUSTOM_EPOCH + Seconds(timestamp).value * SECOND == WholeSecond(timestamp)
  {
  }

  /** Each field reads back from its place. */
  lemma FieldValues(site: nat, env: nat, sec: nat, slot: nat, random: seq<nat>)
    requires |random| == 5 && (forall i | 0 <= i < 5 :: random[i] < 256)
    requires site < 0x1_0000 && env < 0x1_0000 && sec < 0x1_0000_0000 && slot < 0x1_0000
    ensures var p := PackedBytes(site, env, sec, slot, random);
            && |p| == PACKED_LEN && p[0] == ID_VERSION && p[11..16] == random
            && Value(p[1..3], 256) == site && Value(p[3..5], 256) == env
            && Value(p[5..9], 256) == sec && Value(p[9..11], 256) == slot
            && forall i | 0 <= i < |p| :: p[i] < 256
  {
    FieldSlices(site, env, sec, slot, random);
    ByteSizes();
    ValueOfDigits(site, 256, 2);
    ValueOfDigits(env, 256, 2);
    ValueOfDigits(sec, 256, 4);
    ValueOfDigits(slot, 256, 2);
  }

  lemma FieldsOfBytes(site: string, env: string, slot: u16, timestamp: int, random: seq<u8>)
    requires |random| == 5 && Bytes(site, env, slot, timestamp, random).Ok?
    ensures var p := Bytes(site, env, slot, timestamp, random).value;
            && |p| == PACKED_LEN && (forall i | 0 <= i < |p| :: p[i] < 256)
            && Fields(p) == Ok(Decoded(ID_VERSION, site, env, WholeSecond(timestamp), slot, random))
  {
    PackFits(site);
    PackFits(env);
    FieldValues(Pack(site).value, Pack(env).value, Seconds(timestamp).value, slot, random);
    UnpackPack(site);
    UnpackPack(env);
    WholeSeconds(timestamp);
  }

  lemma BytesOfFields(p: seq<nat>)
    requires |p| == PACKED_LEN && (forall i | 0 <= i < |p| :: p[i] < 256) && Fields(p).Ok?
    ensures var d := Fields(p).value;
            && d.slot < 0x1_0000 && |d.random| == 5 && (forall i | 0 <= i < 5 :: d.random[i] < 256)
            && Bytes(d.site, d.env, d.slot, d.timestamp, d.random) == Ok(p)
  {
    SplitJoin(p);
    SecondsKept(Value(p[5..9], 256));
    PackUnpack(Value(p[1..3], 256));
    PackUnpack(Value(p[3..5], 256));
  }

  // ----------------------------------------------------------------- base 32

  /** A 32-symbol codec; `CROCKFORD` below is the one in use. */
  datatype Codec = Codec(alphabet: string) {

    predicate Wf() {
      |alphabet| == 32 && forall a, b | 0 <= a < b < 32 :: alphabet[a] != alphabet[b]
    }

    function Symbols(ds: seq<nat>): (s: string)
      requires Wf() && forall i | 0 <= i < |ds| :: ds[i] < 32
      ensures |s| == |ds| && forall i | 0 <= i < |ds| :: s[i] == alphabet[ds[i]]
    {
      seq(|ds|, i requires 0 <= i < |ds| => alphabet[ds[i]])
    }

    /** The symbol's position; the alphabet has no duplicates, so it is the only one. */
    function SymbolValue(ch: char): (d: nat)
      requires Wf() && ch in alphabet
      ensures d < 32 && alphabet[d] == ch
    {
      IndexFrom(ch, 0)
    }

    function IndexFrom(ch: char, from: nat): (d: nat)
      requires from < |alphabet| && ch in alphabet[from..]
      ensures from <= d < |alphabet| && alphabet[d] == ch
      decreases |alphabet| - from
    {
      if alphabet[from] == ch then from else IndexFrom(ch, from + 1)
    }

    /** Read left to right: the first bad symbol or the overflow, whichever comes first. */
    function Read(id: string): (r: Result<nat, DecodeError>)
      requires Wf()
      ensures r.Ok? ==> r.value < TWO_TO_128
      decreases |id|
    {
      if id == "" then Ok(0) else
        var before := Read(id[..|id| - 1]);
        var ch := id[|id| - 1];
        if before.Err? then before
        else if ch !in alphabet then Err(DisallowedCrockfordCharacter(ch))
        else if before.value * 32 + SymbolValue(ch) >= TWO_TO_128 then Err(Base32ValueOutOfRange)
        else Ok(before.value * 32 + SymbolValue(ch))
    }

    function Write(value: nat): string
      requires Wf()
    {
      Symbols(Digits(value, 32, ID_LEN))
    }

    /** The digits an accepted string spells. */
    lemma {:induction false} ReadSpells(id: string) returns (ds: seq<nat>)
      requires Wf() && Read(id).Ok?
      ensures (forall i | 0 <= i < |ds| :: ds[i] < 32) && Symbols(ds) == id && Value(ds, 32) == Read(id).value
      decreases |id|
    {
      if id == "" {
        ds := [];
      } else {
        var init, ch := id[..|id| - 1], id[|id| - 1];
        var most := ReadSpells(init);
        ds := most + [SymbolValue(ch)];
        assert ds[..|ds| - 1] == most;
        assert id == init + [ch];
      }
    }

    lemma {:induction false} ReadSymbols(ds: seq<nat>)
      requires Wf() && (forall i | 0 <= i < |ds| :: ds[i] < 32) && Value(ds, 32) < TWO_TO_128
      ensures Read(Symbols(ds)) == Ok(Value(ds, 32))
      decreases |ds|
    {
      if ds != [] {
        var init, d := ds[..|ds| - 1], ds[|ds| - 1];
        ReadSymbols(init);
        assert Symbols(ds)[..|ds| - 1] == Symbols(init);
        assert SymbolValue(alphabet[d]) == d;
      }
    }

    /** Whatever fits 128 bits reads back. */
    lemma ReadWrite(value: nat)
      requires Wf() && value < TWO_TO_128
      ensures |Write(value)| == ID_LEN && Read(Write(value)) == Ok(value)
    {
      TwoTo128();
      ValueOfDigits(value, 32, ID_LEN);
      ReadSymbols(Digits(value, 32, ID_LEN));
    }

    /** Whatever is read is written the same way. */
    lemma WriteRead(id: string)
      requires Wf() && |id| == ID_LEN && Read(id).Ok?
      ensures Write(Read(id).value) == id
    {
      var ds := ReadSpells(id);
      assert |ds| == ID_LEN;
      DigitsOfValue(ds, 32);
    }

    method EncodeBase32(packed: seq<nat>) returns (id: string)
      requires Wf() && |packed| == PACKED_LEN
      ensures id == Write(Value(packed, 256))
    {
      var value := Value(packed, 256);
      ghost var whole := Write(value);
      var encoded := new char[ID_LEN](_ => '0');
      var i := ID_LEN;
      while i > 0
        invariant 0 <= i <= ID_LEN
        invariant Symbols(Digits(value, 32, i)) == whole[..i]
        invariant encoded[i..] == whole[i..]
      {
        LastSymbol(value, i, whole);
        i := i - 1;
        encoded[i] := alphabet[value % 32];
        value := value / 32;
      }
      id := encoded[..];
    }

    lemma LastSymbol(value: nat, n: nat, whole: string)
      requires Wf() && 0 < n <= |whole| && Symbols(Digits(value, 32, n)) == whole[..n]
      ensures whole[n - 1] == alphabet[value % 32] && Symbols(Digits(value / 32, 32, n - 1)) == whole[..n - 1]
    {
      LastDigit(value, 32, n);
    }

    method DecodeBase32(id: string) returns (r: Result<seq<nat>, DecodeError>)
      requires Wf()
      ensures r == if |id| != ID_LEN then Err(WrongLength(|id|))
                   else if Read(id).Err? then Err(Read(id).error) else Ok(Digits(Read(id).value, 256, PACKED_LEN))
    {
      if |id| != ID_LEN { return Err(WrongLength(|id|)); }
      var value := 0;
      for i := 0 to |id|
        invariant Read(id[..i]) == Ok(value)
      {
        assert id[..i + 1][..i] == id[..i];
        if id[i] !in alphabet {
          ReadStops(id, i + 1);
          return Err(DisallowedCrockfordCharacter(id[i]));
        }
        var next := value * 32 + SymbolValue(id[i]);
        if next >= TWO_TO_128 {
          ReadStops(id, i + 1);
          return Err(Base32ValueOutOfRange);
        }
        value := next;
      }
      assert id[..|id|] == id;
      r := Ok(Digits(value, 256, PACKED_LEN));
    }

    /** An error in a prefix is the error of the whole. */
    lemma {:induction false} ReadStops(id: string, n: nat)
      requires Wf() && n <= |id| && Read(id[..n]).Err?
      ensures Read(id) == Read(id[..n])
      decreases |id| - n
    {
      if n == |id| {
        assert id[..n] == id;
      } else {
        assert id[..n + 1][..n] == id[..n];
        ReadStops(id, n + 1);
      }
    }

    // ------------------------------------------------------------- whole ids

    function Encode(site: string, env: string, slot: u16, timestamp: int, random: seq<u8>): Result<string, EncodeError>
      requires Wf() && |random| == 5
    {
      var p := Bytes(site, env, slot, timestamp, random);
      if p.Err? then Err(p.error) else Ok(Write(Value(p.value, 256)))
    }

    function Decode(id: string): Result<Decoded, DecodeError>
      requires Wf()
    {
      if |id| != ID_LEN then Err(WrongLength(|id|)) else
        var v := Read(id);
        if v.Err? then Err(v.error) else Fields(Digits(v.value, 256, PACKED_LEN))
    }

    /** Exactly the valid tags and the seconds of a 32-bit window can be encoded. */
    lemma EncodeAccepts(site: string, env: string, slot: u16, timestamp: int, random: seq<u8>)
      requires Wf() && |random| == 5
      ensures Encode(site, env, slot, timestamp, random).Ok? <==>
              ValidTag(site) && ValidTag(env)
              && CUSTOM_EPOCH <= timestamp < CUSTOM_EPOCH + 0x1_0000_0000 * SECOND
    {
    }

    /** Decoding an encoded id returns its fields, with the timestamp cut to the second. */
    lemma DecodeEncode(site: string, env: string, slot: u16, timestamp: int, random: seq<u8>)
      requires Wf() && |random| == 5 && Encode(site, env, slot, timestamp, random).Ok?
      ensures Decode(Encode(site, env, slot, timestamp, random).value)
              == Ok(Decoded(ID_VERSION, site, env, WholeSecond(timestamp), slot, random))
    {
      var p := Bytes(site, env, slot, timestamp, random).value;
      FieldsOfBytes(site, env, slot, timestamp, random);
      TwoTo128();
      DigitsOfValue(p, 256);
      ReadWrite(Value(p, 256));
    }

    /** Re-encoding the fields of any accepted string returns that exact string. */
    lemma EncodeDecode(id: string)
      requires Wf() && Decode(id).Ok?
      ensures var d := Decode(id).value;
              && d.slot < 0x1_0000 && |d.random| == 5 && (forall i | 0 <= i < 5 :: d.random[i] < 256)
              && Encode(d.site, d.env, d.slot, d.timestamp, d.random) == Ok(id)
    {
      var v := Read(id).value;
      BytesOfFields(Digits(v, 256, PACKED_LEN));
      TwoTo128();
      ValueOfDigits(v, 256, PACKED_LEN);
      WriteRead(id);
    }

    /** Two ids are equal only if every field is. */
    lemma EncodeInjective(site: string, env: string, slot: u16, ts: int, random: seq<u8>,
                          site': string, env': string, slot': u16, ts': int, random': seq<u8>)
      requires Wf() && |random| == |random'| == 5
      requires Encode(site, env, slot, ts, random).Ok?
      requires Encode(site', env', slot', ts', random') == Encode(site, env, slot, ts, random)
      ensures site == site' && env == env' && slot == slot' && random == random' && WholeSecond(ts) == WholeSecond(ts')
    {
      DecodeEncode(site, env, slot, ts, random);
      DecodeEncode(site', env', slot', ts', random');
    }

    method EncodeWithFixedRandom(site: string, env: string, slot: u16, timestamp: int, random: seq<u8>)
      returns (r: Result<string, EncodeError>)
      requires Wf() && |random| == 5
      ensures r == Encode(site, env, slot, timestamp, random)
    {
      var s := PackTag(site);
      if s.Err? { return Err(s.error); }
      var e := PackTag(env);
      if e.Err? { return Err(e.error); }
      var t := Seconds(timestamp);
      if t.Err? { return Err(t.error); }
      FieldSlices(s.value, e.value, t.value, slot, random);
      var id := EncodeBase32(PackedBytes(s.value, e.value, t.value, slot, random));
      r := Ok(id);
    }

    method DecodeId(id: string) returns (r: Result<Decoded, DecodeError>)
      requires Wf()
      ensures r == Decode(id)
    {
      var packed := DecodeBase32(id);
      if packed.Err? { return Err(packed.error); }
      r := Fields(packed.value);
    }
  }

  const CROCKFORD := Codec("0123456789abcdefghjkmnpqrstvwxyz")

  lemma CrockfordAscends()
    ensures var a := CROCKFORD.alphabet; |a| == 32 && forall k | 0 <= k < 31 :: a[k] < a[k + 1]
  {
  }

  /** The alphabet in use has 32 different symbols, so every law above is about it. */
  lemma CrockfordWf()
    ensures CROCKFORD.Wf()
  {
    CrockfordAscends();
    AscendingIsWf(CROCKFORD);
  }

  lemma AscendingIsWf(c: Codec)
    requires |c.alphabet| == 32 && forall k | 0 <= k < 31 :: c.alphabet[k] < c.alphabet[k + 1]
    ensures c.Wf()
  {
    forall i, j | 0 <= i < j < 32 ensures c.alphabet[i] != c.alphabet[j] {
      Ascends(c.alphabet, i, j);
    }
  }

  lemma {:induction false} Ascends(a: string, i: nat, j: nat)
    requires i < j < |a| && forall k | 0 <= k < |a| - 1 :: a[k] < a[k + 1]
    ensures a[i] < a[j]
  {
    if i + 1 < j {
      Ascends(a, i, j - 1);
    }
  }
}
