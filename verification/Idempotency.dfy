/** Client order ids: base 36, and the id minted from a prefix, the time and a random token. */
module Idempotency {
  import opened Prelude

  const DEFAULT_PREFIX: string := "xTHPY"
  const MAX_LEN := 36
  const TOKEN_LEN := 8

  /** 0-9 then a-z. */
  function Digit(k: int): char
    requires 0 <= k < 36
  {
    if k < 10 then '0' + k as char else 'a' + (k - 10) as char
  }

  function DigitValue(c: char): nat {
    if '0' <= c <= '9' then c as int - '0' as int
    else if 'a' <= c <= 'z' then c as int - 'a' as int + 10
    else 0
  }

  /** The digits of a positive value, most significant first. */
  function Digits(value: nat): string {
    if value == 0 then "" else Digits(value / 36) + [Digit(value % 36)]
  }

  function Base36(value: int): string {
    if value <= 0 then "0" else Digits(value)
  }

  function Decode(text: string): nat {
    if text == "" then 0 else Decode(text[..|text| - 1]) * 36 + DigitValue(text[|text| - 1])
  }

  function Reversed(text: string): string {
    if text == "" then "" else Reversed(text[1..]) + [text[0]]
  }

  lemma {:induction false} ReversedOneMore(text: string, c: char)
    ensures Reversed(text + [c]) == [c] + Reversed(text)
  {
    if text == "" {
      assert text + [c] == [c] && [c][1..] == "";
    } else {
      assert (text + [c])[1..] == text[1..] + [c];
      ReversedOneMore(text[1..], c);
      assert [c] + Reversed(text[1..]) + [text[0]] == [c] + (Reversed(text[1..]) + [text[0]]);
    }
  }

  lemma {:induction false} MoveDigit(a: string, c: char, b: string)
    ensures (a + [c]) + b == a + ([c] + b)
  {
  }

  method ToBase36(value: int) returns (text: string)
    ensures text == Base36(value)
    ensures value >= 0 ==> Decode(text) == value
  {
    if value <= 0 {
      if value == 0 { DecodeInvertsBase36(0); }
      return "0";
    }
    DecodeInvertsBase36(value);
    var rest, out := value, "";
    while rest != 0
      invariant rest >= 0
      invariant Digits(value) == Digits(rest) + Reversed(out)
    {
      var digit := Digit(rest % 36);
      ReversedOneMore(out, digit);
      MoveDigit(Digits(rest / 36), digit, Reversed(out));
      out := out + [digit];
      rest := rest / 36;
    }
    text := Reversed(out);
  }

  lemma {:induction false} DecodeInvertsDigits(value: nat)
    ensures Decode(Digits(value)) == value
  {
    if value > 0 {
      var text := Digits(value);
      assert text[..|text| - 1] == Digits(value / 36);
      DecodeInvertsDigits(value / 36);
      assert DigitValue(Digit(value % 36)) == value % 36;
    }
  }

  /** Decoding returns every non-negative input. */
  lemma {:induction false} DecodeInvertsBase36(value: int)
    requires value >= 0
    ensures Decode(Base36(value)) == value
  {
    if value == 0 {
      assert "0"[..0] == "";
    } else {
      DecodeInvertsDigits(value);
    }
  }

  predicate IsDigit36(c: char) { '0' <= c <= '9' || 'a' <= c <= 'z' }

  lemma {:induction false} DigitsAreCanonical(value: nat)
    ensures forall c :: c in Digits(value) ==> IsDigit36(c)
    ensures value > 0 ==> Digits(value) != "" && Digits(value)[0] != '0'
  {
    if value > 0 {
      DigitsAreCanonical(value / 36);
    }
  }

  /** The text of a number is its shortest base-36 numeral in digits and lower-case letters: no leading
      zero except for zero itself, which also stands for every negative input. */
  lemma {:induction false} Base36IsCanonical(value: int)
    ensures forall c :: c in Base36(value) ==> IsDigit36(c)
    ensures value <= 0 ==> Base36(value) == "0"
    ensures value > 0 ==> Base36(value) != "" && Base36(value)[0] != '0'
  {
    if value > 0 {
      DigitsAreCanonical(value);
    }
  }

  // ----- minted ids -----

  /** f"{prefix}-{base36}-{token}" cut to 36 characters. */
  function Mint(prefix: string, nowMs: int, token: string): string {
    Prefix(prefix + "-" + Base36(nowMs) + "-" + token, MAX_LEN)
  }

  predicate UrlSafe(c: char) {
    'A' <= c <= 'Z' || 'a' <= c <= 'z' || '0' <= c <= '9' || c == '_' || c == '-'
  }

  ghost predicate Token(token: string) {
    |token| == TOKEN_LEN && forall c :: c in token ==> UrlSafe(c) && c != '_' && c != '-'
  }

  function Power36(k: nat): nat {
    if k == 0 then 1 else 36 * Power36(k - 1)
  }

  lemma {:induction false} DigitsAreShort(value: nat, k: nat)
    requires value < Power36(k)
    ensures |Digits(value)| <= k
  {
    if value > 0 && k > 0 {
      DigitsAreShort(value / 36, k - 1);
    }
  }

  lemma {:induction false} DigitsAreSafe(value: nat)
    ensures forall c :: c in Digits(value) ==> UrlSafe(c)
  {
    if value > 0 {
      DigitsAreSafe(value / 36);
    }
  }

  lemma {:induction false} Base36Fits(nowMs: int)
    requires 0 <= nowMs < Power36(21)
    ensures 1 <= |Base36(nowMs)| <= 21
    ensures forall c :: c in Base36(nowMs) ==> UrlSafe(c)
  {
    if nowMs > 0 {
      DigitsAreShort(nowMs, 21);
      DigitsAreSafe(nowMs);
    }
  }

  /** With the default prefix and an eight-character token the id is not cut, fits 36 characters
      and needs no URL encoding. */
  lemma {:induction false} MintedIdIsWhole(nowMs: int, token: string)
    requires 0 <= nowMs < Power36(21) && Token(token)
    ensures var id := Mint(DEFAULT_PREFIX, nowMs, token);
            && id == "xTHPY-" + Base36(nowMs) + "-" + token
            && |id| <= 36
            && forall c :: c in id ==> UrlSafe(c)
  {
    Base36Fits(nowMs);
    var whole := DEFAULT_PREFIX + "-" + Base36(nowMs) + "-" + token;
    assert whole[..|whole|] == whole;
    forall c | c in whole ensures UrlSafe(c) {
      assert c in DEFAULT_PREFIX || c == '-' || c in Base36(nowMs) || c in token;
    }
  }

  /** Whatever the prefix, the time and the token, an id is the first 36 characters of the whole. */
  lemma {:induction false} MintedIdIsCut(prefix: string, nowMs: int, token: string)
    ensures var whole, id := prefix + "-" + Base36(nowMs) + "-" + token, Mint(prefix, nowMs, token);
            id <= whole && |id| == if |whole| <= 36 then |whole| else 36
  {
  }

  /** Two such ids are equal only when both the time and the token are equal. */
  lemma {:induction false} MintedIdsCollideIff(nowMs: int, token: string, nowMs': int, token': string)
    requires 0 <= nowMs < Power36(21) && Token(token)
    requires 0 <= nowMs' < Power36(21) && Token(token')
    ensures Mint(DEFAULT_PREFIX, nowMs, token) == Mint(DEFAULT_PREFIX, nowMs', token')
            <==> nowMs == nowMs' && token == token'
  {
    MintedIdIsWhole(nowMs, token);
    MintedIdIsWhole(nowMs', token');
    var id, id' := Mint(DEFAULT_PREFIX, nowMs, token), Mint(DEFAULT_PREFIX, nowMs', token');
    MintedParts(nowMs, token);
    MintedParts(nowMs', token');
    if id == id' {
      DecodeInvertsBase36(nowMs);
      DecodeInvertsBase36(nowMs');
    }
  }

  lemma {:induction false} MintedParts(nowMs: int, token: string)
    requires |token| == TOKEN_LEN
    ensures var whole := "xTHPY-" + Base36(nowMs) + "-" + token;
            && |whole| >= 15
            && whole[|whole| - 8..] == token
            && whole[6..|whole| - 9] == Base36(nowMs)
  {
  }
}
