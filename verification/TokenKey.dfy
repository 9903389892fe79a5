/**
 The eight-character token that hides an array index: one digit for the offset of the index,
 filler digits, then the index in decimal.
 */
module TokenKeys {
  import opened Wrappers
  import opened MachineIntegers

  const KEY_SIZE: nat := 8

  predicate IsDigit(c: char) {
    '0' <= c <= '9'
  }

  ghost predicate AllDigits(s: string) {
    forall i :: 0 <= i < |s| ==> IsDigit(s[i])
  }

  function DigitChar(d: nat): (c: char)
    requires d < 10
    ensures IsDigit(c) && DigitValue(c) == d
  {
    '0' + d as char
  }

  function DigitValue(c: char): (d: nat)
    requires IsDigit(c)
    ensures d < 10
  {
    (c - '0') as nat
  }

  /** Decimal notation without leading zeros. */
  function ToString(n: nat): (s: string)
    ensures |s| >= 1 && AllDigits(s)
  {
    if n < 10 then [DigitChar(n)] else ToString(n / 10) + [DigitChar(n % 10)]
  }

  function ValueOf(s: string): nat
    requires AllDigits(s)
  {
    if s == [] then 0 else ValueOf(s[..|s| - 1]) * 10 + DigitValue(s[|s| - 1])
  }

  /** Reading back what was printed. */
  lemma {:induction false} PrintedIsRead(n: nat)
    ensures ValueOf(ToString(n)) == n
    decreases n
  {
    if n >= 10 {
      PrintedIsRead(n / 10);
      var s := ToString(n / 10);
      assert (s + [DigitChar(n % 10)])[..|s|] == s;
    }
  }

  function Pow10(k: nat): nat {
    if k == 0 then 1 else 10 * Pow10(k - 1)
  }

  /** The number of digits tells the size of the number, and the other way round. */
  lemma {:induction false} DigitCount(n: nat, k: nat)
    requires k >= 1
    ensures |ToString(n)| <= k <==> n < Pow10(k)
    decreases k
  {
    if n >= 10 && k > 1 {
      DigitCount(n / 10, k - 1);
      assert n / 10 < Pow10(k - 1) <==> n < 10 * Pow10(k - 1);
    } else if n < 10 {
      Pow10Positive(k);
    }
  }

  lemma {:induction false} Pow10Positive(k: nat)
    ensures k >= 1 ==> Pow10(k) >= 10
    ensures Pow10(k) >= 1
    decreases k
  {
    if k > 0 {
      Pow10Positive(k - 1);
    }
  }

  /** Reading the leading digits of a character range; what is out of range for an unsigned
      integer leaves the result at 0. */
  function LeadingDigits(s: string): (t: string)
    ensures AllDigits(t) && |t| <= |s|
    ensures AllDigits(s) ==> t == s
  {
    if s == [] || !IsDigit(s[0]) then [] else [s[0]] + LeadingDigits(s[1..])
  }

  function FromChars(s: string): nat {
    var v := ValueOf(LeadingDigits(s));
    if v < UINT_SIZE then v else 0
  }

  // ----- the key

  /** The offset is an unsigned 32-bit integer, so it wraps for more than eight digits. */
  function Offset(index: nat): nat {
    (KEY_SIZE - |ToString(index)|) % UINT_SIZE
  }

  function TakeAtMost(s: string, n: nat): string {
    if n <= |s| then s[..n] else s
  }

  function Token(index: nat, filler: string): string {
    var offset := Offset(index);
    ToString(offset) + (if offset == 0 then "" else TakeAtMost(filler, offset - 1)) + ToString(index)
  }

  /** The key for an index, or None when the index is rejected as too big.  The filler stands
      for the digits the object's address shuffles to. */
  method BuildKey(index: nat, filler: string) returns (key: Option<string>)
    requires index < UINT_SIZE && |filler| >= 6
    ensures key.Some? <==> index < 100000 || index >= 100000000
    ensures key.Some? ==> |key.value| == KEY_SIZE && key.value == Token(index, filler)[..KEY_SIZE]
  {
    OffsetByRange(index);
    var id := ToString(index);
    var offset := Offset(index);
    if offset < 3 {
      return None;
    }
    var token := ToString(offset) + TakeAtMost(filler, offset - 1) + id;
    assert token == Token(index, filler);
    return Some(token[..KEY_SIZE]);
  }

  /** Decoding: the first digit says where the index begins. */
  function GetIndex(key: string): nat
    requires |key| == KEY_SIZE && IsDigit(key[0]) && DigitValue(key[0]) <= KEY_SIZE
  {
    FromChars(key[DigitValue(key[0])..])
  }

  lemma PowersOfTen()
    ensures Pow10(5) == 100000 && Pow10(8) == 100000000 && Pow10(10) == 10000000000
  {
  }

  lemma OffsetByRange(index: nat)
    requires index < UINT_SIZE
    ensures index < 100000 <==> |ToString(index)| <= 5
    ensures index < 100000 ==> Offset(index) == KEY_SIZE - |ToString(index)|
    ensures 100000 <= index < 100000000 ==> Offset(index) < 3
    ensures 100000000 <= index ==> Offset(index) == UINT_SIZE - 1 || Offset(index) == UINT_SIZE - 2
    ensures |ToString(index)| <= 10
  {
    PowersOfTen();
    DigitCount(index, 5);
    DigitCount(index, 8);
    DigitCount(index, 10);
  }

  lemma SmallIndexToken(index: nat, filler: string)
    requires index < 100000 && |filler| >= 6
    ensures var (key, offset) := (Token(index, filler), Offset(index));
            && |key| == KEY_SIZE && 3 <= offset <= 7
            && key[0] == DigitChar(offset) && key[1..offset] == filler[..offset - 1]
            && key[offset..] == ToString(index)
  {
    OffsetByRange(index);
    var offset, id := Offset(index), ToString(index);
    assert ToString(offset) == [DigitChar(offset)];
    var head := ToString(offset) + filler[..offset - 1];
    assert Token(index, filler) == head + id && |head| == offset;
    assert head[1..] == filler[..offset - 1] && Token(index, filler)[1..offset] == head[1..];
  }

  lemma PrintStep(n: nat)
    requires n >= 10
    ensures ToString(n) == ToString(n / 10) + [DigitChar(n % 10)]
  {
  }

  lemma LeadingEight(n: nat)
    requires n / 10 / 10 == 42949672
    ensures |ToString(n)| >= 8 && ToString(n)[..8] == ToString(42949672)[..8] && |ToString(42949672)| == 8
  {
  }

  lemma PrintedFour()
    ensures ToString(4294) == "4294"
  {
    assert ToString(4) == "4" && ToString(42) == "42" && ToString(429) == "429";
  }

  lemma PrintedEight()
    ensures ToString(42949672) == "42949672"
  {
    hide ToString;
    PrintedFour();
    PrintStep(42949);
    PrintStep(429496);
    PrintStep(4294967);
    PrintStep(42949672);
  }

  lemma WrappedOffsetDigits(offset: nat)
    requires offset == UINT_SIZE - 1 || offset == UINT_SIZE - 2
    ensures |ToString(offset)| >= 8 && ToString(offset)[..8] == "42949672"
  {
    hide ToString;
    LeadingEight(offset);
    PrintedEight();
  }

  lemma SmallRoundTrip(index: nat, filler: string)
    requires index < 100000 && |filler| >= 6
    ensures var key := Token(index, filler);
            && |key| == KEY_SIZE && IsDigit(key[0]) && DigitValue(key[0]) <= KEY_SIZE && GetIndex(key) == index
  {
    hide Token, Offset, ToString;
    SmallIndexToken(index, filler);
    PrintedIsRead(index);
  }

  lemma WrappedKey(index: nat, filler: string)
    requires 100000000 <= index < UINT_SIZE && |filler| >= 6
    ensures var key := Token(index, filler);
            && |key| >= KEY_SIZE && IsDigit(key[0]) && DigitValue(key[0]) <= KEY_SIZE
            && key[..KEY_SIZE] == "42949672" && GetIndex(key[..KEY_SIZE]) == 9672
  {
    hide ToString, FromChars;
    OffsetByRange(index);
    WrappedOffsetDigits(Offset(index));
    var key := Token(index, filler);
    assert key[..KEY_SIZE] == ToString(Offset(index))[..8] == "42949672";
    assert key[0] == key[..KEY_SIZE][0] == '4';
    assert key[..KEY_SIZE][4..] == "9672";
    ReadsWrapped();
  }

  /** For every index the type can hold: the key gives the index back exactly when the index
      is below 100000.  Between there and 10^8 no key is built; from 10^8 on the offset wraps
      and every key decodes to 9672. */
  lemma RoundTripIffSmall(index: nat, filler: string)
    requires index < UINT_SIZE && |filler| >= 6
    ensures index < 100000 || index >= 100000000 ==>
              var key := Token(index, filler);
              && |key| >= KEY_SIZE && IsDigit(key[0]) && DigitValue(key[0]) <= KEY_SIZE
              && (GetIndex(key[..KEY_SIZE]) == index <==> index < 100000)
              && (index >= 100000000 ==> key[..KEY_SIZE] == "42949672" && GetIndex(key[..KEY_SIZE]) == 9672)
  {
    hide Token, GetIndex;
    if index < 100000 {
      SmallRoundTrip(index, filler);
      assert Token(index, filler)[..KEY_SIZE] == Token(index, filler);
    } else if index >= 100000000 {
      WrappedKey(index, filler);
    }
  }

  lemma ReadsWrapped()
    ensures FromChars("9672") == 9672
  {
    assert LeadingDigits("9672") == "9672";
    assert "9672"[..3] == "967" && "967"[..2] == "96" && "96"[..1] == "9" && "9"[..0] == "";
    assert ValueOf("9") == 9;
    assert ValueOf("96") == 96;
    assert ValueOf("967") == 967;
  }
}
