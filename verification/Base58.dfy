/** Base58: the encoder of the smoke runner (src/bin/flp-mainnet-smoke.ts) and the decoder of the FLP client
    (src/flp/index.ts) live in different files and must be each other's inverse. */
module Base58 {
  import opened Results

  const ALPHABET := "123456789" + "ABCDEFGHJKLMNPQRSTUVWXYZ" + "abcdefghijkmnopqrstuvwxyz"

  datatype Error = EmptyHex | InvalidBase58

  // ---- Digit strings in any base, most significant digit first ----

  ghost predicate Digits(base: nat, ds: seq<int>) {
    forall i | 0 <= i < |ds| :: 0 <= ds[i] < base
  }

  function Value(base: nat, ds: seq<int>): int {
    if ds == [] then 0 else Value(base, ds[..|ds| - 1]) * base + ds[|ds| - 1]
  }

  /** The digits of n without leading zeros; none for zero. */
  function Numeral(base: nat, n: nat): (ds: seq<int>)
    requires base >= 2
    ensures Digits(base, ds) && (ds != [] ==> ds[0] != 0)
    decreases n
  {
    if n == 0 then []
    else
      QuotientSmaller(n, base);
      var high := Numeral(base, n / base);
      assert high == [] ==> n % base == n by {
        if n / base > 0 { assert Numeral(base, n / base) != []; }
      }
      high + [n % base]
  }

  lemma QuotientSmaller(n: nat, base: nat)
    requires base >= 2 && n > 0
    ensures 0 <= n / base < n && n == n / base * base + n % base
  {
    var q := n / base;
    if q >= 1 {
      assert q * base >= q * 2;
    }
  }

  function Zeros(k: nat): (ds: seq<int>)
    ensures |ds| == k && forall i | 0 <= i < k :: ds[i] == 0
  {
    seq(k, _ => 0)
  }

  function LeadingZeros(ds: seq<int>): (k: nat)
    ensures k <= |ds|
    ensures forall i | 0 <= i < k :: ds[i] == 0
    ensures k < |ds| ==> ds[k] != 0
  {
    if ds == [] || ds[0] != 0 then 0 else 1 + LeadingZeros(ds[1..])
  }

  /** Rewriting a digit string in another base, keeping the number of leading zeros. */
  function Transcode(from: nat, to: nat, ds: seq<int>): seq<int>
    requires to >= 2
  {
    Zeros(LeadingZeros(ds)) + (if Value(from, ds) < 0 then [] else Numeral(to, Value(from, ds)))
  }

  lemma {:induction false} ValueNonNegative(base: nat, ds: seq<int>)
    requires Digits(base, ds)
    ensures 0 <= Value(base, ds)
  {
    if ds != [] {
      ValueNonNegative(base, ds[..|ds| - 1]);
    }
  }

  lemma {:induction false} ValueOfNumeral(base: nat, n: nat)
    requires base >= 2
    ensures Value(base, Numeral(base, n)) == n
    decreases n
  {
    if n > 0 {
      QuotientSmaller(n, base);
      ValueOfNumeral(base, n / base);
      var ds := Numeral(base, n);
      assert ds[..|ds| - 1] == Numeral(base, n / base);
    }
  }

  lemma {:induction false} ValueIgnoresLeadingZeros(base: nat, k: nat, ds: seq<int>)
    ensures Value(base, Zeros(k) + ds) == Value(base, ds)
    decreases k + |ds|
  {
    var all := Zeros(k) + ds;
    if ds != [] {
      assert all[..|all| - 1] == Zeros(k) + ds[..|ds| - 1];
      ValueIgnoresLeadingZeros(base, k, ds[..|ds| - 1]);
    } else if k > 0 {
      assert all[..|all| - 1] == Zeros(k - 1) + ds;
      ValueIgnoresLeadingZeros(base, k - 1, ds);
    }
  }

  /** A digit string without a leading zero is the numeral of its value. */
  lemma {:induction false} NumeralOfValue(base: nat, ds: seq<int>)
    requires base >= 2 && Digits(base, ds)
    requires ds != [] ==> ds[0] != 0
    ensures Value(base, ds) >= 0 && Numeral(base, Value(base, ds)) == ds
    ensures ds != [] ==> Value(base, ds) > 0
  {
    ValueNonNegative(base, ds);
    if ds != [] {
      var high, low := ds[..|ds| - 1], ds[|ds| - 1];
      NumeralOfValue(base, high);
      var v := Value(base, high);
      DivModUnique(v, base, low);
    }
  }

  lemma DivModUnique(q: int, base: int, r: int)
    requires 0 <= q && base > 0 && 0 <= r < base
    ensures (q * base + r) / base == q && (q * base + r) % base == r
    ensures q > 0 ==> q * base + r > 0
  {
    var n := q * base + r;
    assert n == n / base * base + n % base;
    assert (q - n / base) * base == q * base - n / base * base;
    SmallMultiple(q - n / base, base, n % base - r);
    if q > 0 {
      SmallMultiple(q, base, q * base);
    }
  }

  lemma SmallMultiple(x: int, base: int, e: int)
    requires base > 0 && x * base == e
    ensures x == 0 || e <= -base || base <= e
  {
    if x >= 1 {
      assert (x - 1) * base >= 0;
    } else if x <= -1 {
      assert (-x - 1) * base >= 0;
    }
  }

  lemma LeadingZerosOf(k: nat, ds: seq<int>)
    requires ds != [] ==> ds[0] != 0
    ensures LeadingZeros(Zeros(k) + ds) == k
  {
    var all := Zeros(k) + ds;
    var z := LeadingZeros(all);
    assert forall i | 0 <= i < k :: all[i] == 0;
    assert ds != [] ==> all[k] == ds[0];
    assert z >= k && z <= k;
  }

  lemma StripZeros(ds: seq<int>)
    ensures ds == Zeros(LeadingZeros(ds)) + ds[LeadingZeros(ds)..]
  {
  }

  /** Any digit string survives a change of base and back, leading zeros included. */
  lemma TranscodeInverse(from: nat, to: nat, ds: seq<int>)
    requires from >= 2 && to >= 2 && Digits(from, ds)
    ensures Transcode(to, from, Transcode(from, to, ds)) == ds
    ensures Digits(to, Transcode(from, to, ds))
    ensures ds != [] ==> Transcode(from, to, ds) != []
  {
    var k := LeadingZeros(ds);
    var tail := ds[k..];
    StripZeros(ds);
    ValueIgnoresLeadingZeros(from, k, tail);
    NumeralOfValue(from, tail);
    var v := Value(from, ds);
    LeadingZerosOf(k, Numeral(to, v));
    ValueIgnoresLeadingZeros(to, k, Numeral(to, v));
    ValueOfNumeral(to, v);
    if ds != [] && k == 0 {
      assert v > 0;
    }
  }

  // ---- Characters ----

  /** The position of a character in the alphabet, or -1. */
  function IndexOf(c: char): (d: int)
    ensures -1 <= d < |ALPHABET|
    ensures d >= 0 ==> ALPHABET[d] == c
    ensures d < 0 ==> c !in ALPHABET
  {
    FirstIndex(c, 0)
  }

  function FirstIndex(c: char, from: nat): (d: int)
    requires from <= |ALPHABET|
    ensures -1 <= d < |ALPHABET|
    ensures d >= 0 ==> d >= from && ALPHABET[d] == c
    ensures d < 0 ==> c !in ALPHABET[from..]
    decreases |ALPHABET| - from
  {
    if from == |ALPHABET| then -1
    else if ALPHABET[from] == c then from
    else
      assert ALPHABET[from..] == [ALPHABET[from]] + ALPHABET[from + 1..];
      FirstIndex(c, from + 1)
  }

  lemma AlphabetAscends(i: nat)
    requires i + 1 < |ALPHABET|
    ensures ALPHABET[i] < ALPHABET[i + 1]
  {
    // Case split on the position.
    assert i in {0, 1, 2, 3, 4, 5, 6, 7, 8, 9, 10, 11, 12, 13, 14, 15, 16, 17, 18, 19, 20, 21, 22, 23, 24, 25, 26, 27,
                 28, 29, 30, 31, 32, 33, 34, 35, 36, 37, 38, 39, 40, 41, 42, 43, 44, 45, 46, 47, 48, 49, 50, 51, 52,
                 53, 54, 55, 56};
  }

  lemma {:induction false} AlphabetOrdered(i: nat, j: nat)
    requires i < j < |ALPHABET|
    ensures ALPHABET[i] < ALPHABET[j]
  {
    AlphabetAscends(j - 1);
    if i < j - 1 {
      AlphabetOrdered(i, j - 1);
    }
  }

  lemma IndexOfDigit(d: nat)
    requires d < |ALPHABET|
    ensures IndexOf(ALPHABET[d]) == d
  {
    assert ALPHABET[d] in ALPHABET;
    var k := IndexOf(ALPHABET[d]);
    if k < d {
      AlphabetOrdered(k, d);
    } else if d < k {
      AlphabetOrdered(d, k);
    }
  }

  function Spell(ds: seq<int>): (text: string)
    requires Digits(58, ds)
    ensures |text| == |ds|
  {
    seq(|ds|, i requires 0 <= i < |ds| => ALPHABET[ds[i]])
  }

  predicate Spelled(text: string) {
    forall i | 0 <= i < |text| :: IndexOf(text[i]) >= 0
  }

  function Read(text: string): (ds: seq<int>)
    requires Spelled(text)
    ensures |ds| == |text| && Digits(58, ds)
  {
    seq(|text|, i requires 0 <= i < |text| => IndexOf(text[i]))
  }

  lemma ReadSpell(ds: seq<int>)
    requires Digits(58, ds)
    ensures Spelled(Spell(ds)) && Read(Spell(ds)) == ds
  {
    forall i | 0 <= i < |ds|
      ensures IndexOf(Spell(ds)[i]) == ds[i]
    {
      IndexOfDigit(ds[i]);
    }
  }

  lemma SpellRead(text: string)
    requires Spelled(text)
    ensures Spell(Read(text)) == text
  {
  }

  // ---- What the two loops compute ----

  /** An empty byte string has no hexadecimal form to parse, so it is an error. */
  function Encoded(bytes: seq<int>): Result<string, Error>
    requires Digits(256, bytes)
  {
    if bytes == [] then Err(EmptyHex)
    else
      TranscodeInverse(256, 58, bytes);
      Ok(Spell(Transcode(256, 58, bytes)))
  }

  function Decoded(text: string): Result<seq<int>, Error> {
    if Spelled(text) then Ok(Transcode(58, 256, Read(text))) else Err(InvalidBase58)
  }

  /** Decoding the encoding of any non-empty byte string gives it back, leading zero bytes included. */
  lemma DecodeEncode(bytes: seq<int>)
    requires Digits(256, bytes) && bytes != []
    ensures Encoded(bytes).Ok? && Decoded(Encoded(bytes).value) == Ok(bytes)
  {
    TranscodeInverse(256, 58, bytes);
    ReadSpell(Transcode(256, 58, bytes));
  }

  /** Encoding the decoding of any non-empty valid text gives it back. */
  lemma EncodeDecode(text: string)
    requires text != "" && Decoded(text).Ok?
    ensures Digits(256, Decoded(text).value) && Encoded(Decoded(text).value) == Ok(text)
  {
    TranscodeInverse(58, 256, Read(text));
    SpellRead(text);
  }

  /** A text decodes exactly when it is written in the alphabet. */
  lemma DecodesExactlyTheAlphabet(text: string)
    ensures Decoded(text).Ok? <==> forall i | 0 <= i < |text| :: text[i] in ALPHABET
  {
    forall i | 0 <= i < |text|
      ensures IndexOf(text[i]) >= 0 <==> text[i] in ALPHABET
    {
    }
  }

  // ---- The loops ----

  lemma NumeralStep(base: nat, n: nat, low: seq<int>)
    requires base >= 2 && n > 0
    ensures Numeral(base, n) + low == Numeral(base, n / base) + ([n % base] + low)
    ensures 0 <= n / base < n && 0 <= n % base < base
  {
    QuotientSmaller(n, base);
  }

  lemma SpellStep(d: int, ds: seq<int>)
    requires Digits(58, ds) && 0 <= d < 58
    ensures Digits(58, [d] + ds) && Spell([d] + ds) == [ALPHABET[d]] + Spell(ds)
  {
  }

  lemma ZeroStep(k: nat, ds: seq<int>)
    ensures Zeros(k + 1) + ds == [0] + (Zeros(k) + ds)
  {
  }

  lemma ReadStep(text: string, i: nat)
    requires i < |text| && Spelled(text[..i]) && IndexOf(text[i]) >= 0
    ensures Spelled(text[..i + 1])
    ensures Value(58, Read(text[..i + 1])) == Value(58, Read(text[..i])) * 58 + IndexOf(text[i])
  {
    var ds := Read(text[..i + 1]);
    assert ds[..|ds| - 1] == Read(text[..i]);
  }

  lemma OneIsZero(text: string, i: nat)
    requires i < |text| && Spelled(text)
    ensures text[i] == '1' <==> Read(text)[i] == 0
  {
    assert ALPHABET[0] == '1';
    IndexOfDigit(0);
  }

  lemma LeadingZerosStep(ds: seq<int>, i: nat)
    requires i <= LeadingZeros(ds) && i < |ds|
    ensures ds[i] == 0 <==> i < LeadingZeros(ds)
  {
  }

  method Encode(bytes: seq<int>) returns (r: Result<string, Error>)
    requires Digits(256, bytes)
    ensures r == Encoded(bytes)
  {
    if bytes == [] {
      return Err(EmptyHex);
    }
    ValueNonNegative(256, bytes);
    var n: nat := Value(256, bytes);
    var out := "";
    ghost var low: seq<int> := [];
    while n > 0
      invariant Digits(58, low) && out == Spell(low)
      invariant Numeral(58, Value(256, bytes)) == Numeral(58, n) + low
    {
      NumeralStep(58, n, low);
      SpellStep(n % 58, low);
      low := [n % 58] + low;
      out := [ALPHABET[n % 58]] + out;
      n := n / 58;
    }
    ghost var all := low;
    assert ALPHABET[0] == '1';
    var i := 0;
    while i < |bytes| && bytes[i] == 0
      invariant 0 <= i <= LeadingZeros(bytes)
      invariant all == Zeros(i) + low
      invariant Digits(58, all) && out == Spell(all)
    {
      ZeroStep(i, low);
      SpellStep(0, all);
      all := [0] + all;
      out := "1" + out;
      i := i + 1;
    }
    TranscodeInverse(256, 58, bytes);
    r := Ok(out);
  }

  method Decode(text: string) returns (r: Result<seq<int>, Error>)
    ensures r == Decoded(text)
  {
    var n: nat := 0;
    for i := 0 to |text|
      invariant Spelled(text[..i]) && n == Value(58, Read(text[..i]))
    {
      var digit := IndexOf(text[i]);
      if digit < 0 {
        return Err(InvalidBase58);
      }
      ReadStep(text, i);
      n := n * 58 + digit;
    }
    assert text[..|text|] == text;
    ghost var ds := Read(text);
    var bytes: seq<int> := [];
    while n > 0
      invariant Numeral(256, Value(58, ds)) == Numeral(256, n) + bytes
    {
      NumeralStep(256, n, bytes);
      bytes := [n % 256] + bytes;
      n := n / 256;
    }
    ghost var low := bytes;
    var i := 0;
    while i < |text| && text[i] == '1'
      invariant 0 <= i <= LeadingZeros(ds)
      invariant bytes == Zeros(i) + low
    {
      OneIsZero(text, i);
      LeadingZerosStep(ds, i);
      ZeroStep(i, low);
      bytes := [0] + bytes;
      i := i + 1;
    }
    if i < |text| {
      OneIsZero(text, i);
      LeadingZerosStep(ds, i);
    }
    r := Ok(bytes);
  }
}
