/** Shared value types of the search tool and the registry identifier (IČO)
    validator of internal/types/types.go. */
module Types {

  datatype Option<+T> = None | Some(value: T)

  /** A value or the error that prevented it; the model's form of Go's `(T, error)` return pair. */
  datatype Result<+T, +E> = Ok(value: T) | Err(error: E)

  /** Go's generic `Result[T]` struct: a value and an error travelling together on a channel.
      Either field may be the zero value; nothing ties them together. */
  datatype ResultPair<+T, +E> = ResultPair(result: T, err: Option<E>)

  /** A registry identifier. The Go type is a plain string, so nothing forces it through `CreateIco`. */
  type Ico = string

  datatype IcoError = WrongLength | NotANumber

  // ---------------------------------------------------------------------------
  // Lengths as Go counts them: `len` of a string is its UTF-8 byte length.

  function Utf8Width(c: char): (w: nat)
    ensures 1 <= w <= 4
    ensures w == 1 <==> c as int < 0x80
  {
    if c as int < 0x80 then 1
    else if c as int < 0x800 then 2
    else if c as int < 0x10000 then 3
    else 4
  }

  function Utf8Length(s: string): (n: nat)
    ensures n >= |s|
    ensures n == |s| <==> forall i :: 0 <= i < |s| ==> s[i] as int < 0x80
  {
    if s == [] then 0 else Utf8Width(s[0]) + Utf8Length(s[1..])
  }

  // ---------------------------------------------------------------------------
  // strconv.Atoi (base 10, 64-bit int): an optional '+' or '-', then at least one
  // ASCII digit, and a value that fits in an int64. No spaces, no underscores.

  const Int64Min: int := -0x8000_0000_0000_0000
  const Int64Max: int := 0x7FFF_FFFF_FFFF_FFFF

  predicate IsDigit(c: char) { '0' <= c <= '9' }

  predicate AllDigits(s: string) { forall i :: 0 <= i < |s| ==> IsDigit(s[i]) }

  function DigitsValue(s: string): (v: nat)
    requires AllDigits(s)
  {
    if s == [] then 0 else DigitsValue(s[..|s| - 1]) * 10 + (s[|s| - 1] as int - '0' as int)
  }

  lemma DigitsValueAppend(s: string, c: char)
    requires AllDigits(s) && IsDigit(c)
    ensures AllDigits(s + [c]) && DigitsValue(s + [c]) == DigitsValue(s) * 10 + (c as int - '0' as int)
  {
    assert (s + [c])[..|s|] == s;
  }

  function Pow10(n: nat): (p: nat)
    ensures p >= 1
  {
    if n == 0 then 1 else 10 * Pow10(n - 1)
  }

  lemma {:induction false} DigitsValueBound(s: string)
    requires AllDigits(s)
    ensures DigitsValue(s) < Pow10(|s|)
  {
    if s != [] {
      DigitsValueBound(s[..|s| - 1]);
    }
  }

  predicate HasSign(s: string) { |s| > 0 && (s[0] == '+' || s[0] == '-') }

  /** The digits after an optional sign. */
  function Unsigned(s: string): string
  {
    if HasSign(s) then s[1..] else s
  }

  function Atoi(s: string): (r: Option<int>)
    ensures r.Some? ==> Int64Min <= r.value <= Int64Max
    ensures r.Some? ==> |Unsigned(s)| > 0 && AllDigits(Unsigned(s))
  {
    var digits := Unsigned(s);
    if digits == [] || !AllDigits(digits) then None
    else
      var v: int := if HasSign(s) && s[0] == '-' then -(DigitsValue(digits) as int) else DigitsValue(digits);
      if Int64Min <= v <= Int64Max then Some(v) else None
  }

  /** Short inputs never overflow: exactly the well-formed ones are accepted. */
  lemma AtoiShort(s: string)
    requires |s| <= 10
    ensures Atoi(s).Some? <==> |Unsigned(s)| > 0 && AllDigits(Unsigned(s))
  {
    var digits := Unsigned(s);
    if |digits| > 0 && AllDigits(digits) {
      DigitsValueBound(digits);
      assert Pow10(|digits|) <= Pow10(10) by { Pow10Monotone(|digits|, 10); }
      assert Pow10(10) == 10_000_000_000 by {
        assert Pow10(2) == 100;
        assert Pow10(4) == 10_000;
        assert Pow10(6) == 1_000_000;
        assert Pow10(8) == 100_000_000;
      }
    }
  }

  lemma {:induction false} Pow10Monotone(a: nat, b: nat)
    requires a <= b
    ensures Pow10(a) <= Pow10(b)
  {
    if a < b {
      Pow10Monotone(a, b - 1);
    }
  }

  // ---------------------------------------------------------------------------
  // CreateIco

  /** The length check comes first, then the numeric check; on success the input is returned unchanged. */
  function CreateIco(ico: string): (r: Result<Ico, IcoError>)
    ensures r == Err(WrongLength) <==> Utf8Length(ico) != 8
    ensures r == Err(NotANumber) <==> Utf8Length(ico) == 8 && Atoi(ico).None?
    ensures r.Ok? ==> r.value == ico
  {
    if Utf8Length(ico) != 8 then Err(WrongLength)
    else if Atoi(ico).None? then Err(NotANumber)
    else Ok(ico)
  }

  /** Eight ASCII digits, or a sign followed by seven ASCII digits. */
  predicate IcoShaped(s: string)
  {
    |s| == 8 && (AllDigits(s) || (HasSign(s) && AllDigits(s[1..])))
  }

  /** Because Atoi accepts a leading sign, the validator accepts exactly "8 digits" or "sign + 7 digits". */
  lemma CreateIcoAcceptsExactly(ico: string)
    ensures CreateIco(ico).Ok? <==> IcoShaped(ico)
  {
    if |ico| == 8 {
      AtoiShort(ico);
      if HasSign(ico) {
        assert !AllDigits(ico) by { assert !IsDigit(ico[0]); }
      }
    }
  }

  /** The three rejected inputs of internal/types/types_test.go. */
  lemma CreateIcoRejectsTestInputs()
    ensures CreateIco("1234567") == Err(WrongLength)
    ensures CreateIco("123456789") == Err(WrongLength)
    ensures CreateIco("1234567a") == Err(NotANumber)
  {
    assert !IsDigit("1234567a"[7]);
    assert !AllDigits(Unsigned("1234567a"));
  }

  /** A digit or sign followed by seven digits is accepted unchanged: "12345678", "+1234567" and "-1234567" all pass. */
  lemma SignedIcoAccepted(ico: string)
    requires |ico| == 8 && (ico[0] == '+' || ico[0] == '-' || IsDigit(ico[0]))
    requires forall i :: 1 <= i < 8 ==> IsDigit(ico[i])
    ensures CreateIco(ico) == Ok(ico)
  {
    if !IsDigit(ico[0]) {
      assert AllDigits(ico[1..]) by {
        forall i | 0 <= i < 7 ensures IsDigit(ico[1..][i]) { assert ico[1..][i] == ico[i + 1]; }
      }
    }
    CreateIcoAcceptsExactly(ico);
  }
}
