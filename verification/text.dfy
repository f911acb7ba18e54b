/** The Python string operations the bot's logic depends on: `str.strip()`,
    `str.lower()` (for the scripts the bot compares against), `str.split(':')`,
    the `^\d+$` message filter and `int()` / `str()` on decimal numerals. */
module Text {
  import opened Base

  /** Python's `str.isspace()`, which is also what `\s` and `str.strip()`
      treat as white space. */
  predicate IsSpace(c: char) {
    || c == ' '
    || ('\t' <= c <= '\r')
    || ('\U{1C}' <= c <= '\U{1F}')
    || c == '\U{85}'
    || c == '\U{A0}'
    || c == '\U{1680}'
    || ('\U{2000}' <= c <= '\U{200A}')
    || c == '\U{2028}'
    || c == '\U{2029}'
    || c == '\U{202F}'
    || c == '\U{205F}'
    || c == '\U{3000}'
  }

  /** An ASCII decimal digit.  Python's `\d` and `int()` also accept the
      other Unicode decimal digits, such as the Arabic-Indic ones; those
      are not modelled. */
  predicate IsDigit(c: char) {
    '0' <= c <= '9'
  }

  function DigitValue(c: char): (d: nat)
    requires IsDigit(c)
    ensures d < 10
  {
    c as int - '0' as int
  }

  function DigitChar(d: nat): (c: char)
    requires d < 10
    ensures IsDigit(c) && DigitValue(c) == d
  {
    ('0' as int + d) as char
  }

  predicate AllDigits(s: string) {
    forall i :: 0 <= i < |s| ==> IsDigit(s[i])
  }

  /** The value of a run of decimal digits, most significant first. */
  function DigitsValue(s: string): (n: nat)
    requires AllDigits(s)
  {
    if s == [] then 0 else 10 * DigitsValue(s[..|s| - 1]) + DigitValue(s[|s| - 1])
  }

  /** The first index at or after `i` that is not white space (or `|s|`). */
  function SkipSpace(s: string, i: nat): (k: nat)
    requires i <= |s|
    ensures i <= k <= |s|
    ensures forall j :: i <= j < k ==> IsSpace(s[j])
    ensures k < |s| ==> !IsSpace(s[k])
    decreases |s| - i
  {
    if i < |s| && IsSpace(s[i]) then SkipSpace(s, i + 1) else i
  }

  /** The end of `s[..e]` once its trailing white space is dropped. */
  function SkipSpaceBack(s: string, e: nat): (k: nat)
    requires e <= |s|
    ensures k <= e
    ensures forall j :: k <= j < e ==> IsSpace(s[j])
    ensures k > 0 ==> !IsSpace(s[k - 1])
  {
    if e > 0 && IsSpace(s[e - 1]) then SkipSpaceBack(s, e - 1) else e
  }

  /** How many white-space characters `s.strip()` cuts from the front. */
  function LeadingSpace(s: string): (k: nat)
    ensures k <= |s|
  {
    SkipSpace(s, 0)
  }

  /** Python's `s.strip()`: the text with white space removed at both ends;
      the result is the contiguous piece of `s` starting after its leading
      white space, it neither starts nor ends in white space, and everything
      cut away is white space. */
  function Strip(s: string): (r: string)
    ensures r != [] ==> !IsSpace(r[0]) && !IsSpace(r[|r| - 1])
    ensures LeadingSpace(s) + |r| <= |s|
    ensures r == s[LeadingSpace(s)..LeadingSpace(s) + |r|]
    ensures forall i :: 0 <= i < LeadingSpace(s) ==> IsSpace(s[i])
    ensures forall i :: LeadingSpace(s) + |r| <= i < |s| ==> IsSpace(s[i])
  {
    var a := SkipSpace(s, 0);
    var e := SkipSpaceBack(s, |s|);
    if a < e then s[a..e] else []
  }

  /** A text that neither starts nor ends in white space is its own strip. */
  lemma StripUnchanged(s: string)
    requires s != [] && !IsSpace(s[0]) && !IsSpace(s[|s| - 1])
    ensures Strip(s) == s
  {
    assert SkipSpace(s, 0) == 0;
    assert SkipSpaceBack(s, |s|) == |s|;
  }

  lemma StripIdempotent(s: string)
    ensures Strip(Strip(s)) == Strip(s)
  {
    var r := Strip(s);
    if r != [] {
      StripUnchanged(r);
    }
  }

  /** Python's `str.lower()` on one character, for the Latin and Cyrillic
      capitals; every other character is returned unchanged. */
  function LowerChar(c: char): (r: char)
    ensures ('A' <= c <= 'Z') ==> 'a' <= r <= 'z'
    ensures ('a' <= c <= 'z') || IsDigit(c) ==> r == c
  {
    if 'A' <= c <= 'Z' then (c as int + 32) as char
    else if '\U{410}' <= c <= '\U{42F}' then (c as int + 32) as char
    else if '\U{400}' <= c <= '\U{40F}' then (c as int + 80) as char
    else c
  }

  function Lower(s: string): (r: string)
    ensures |r| == |s|
    ensures forall i :: 0 <= i < |s| ==> r[i] == LowerChar(s[i])
  {
    seq(|s|, i requires 0 <= i < |s| => LowerChar(s[i]))
  }

  /** Python's `s.split(sep)`: the pieces between separators, always at
      least one. */
  function Split(s: string, sep: char): (parts: seq<string>)
    ensures |parts| >= 1
    ensures forall i :: 0 <= i < |parts| ==> sep !in parts[i]
  {
    if s == [] then [[]]
    else
      var rest := Split(s[1..], sep);
      if s[0] == sep then [[]] + rest
      else [[s[0]] + rest[0]] + rest[1..]
  }

  /** `sep.join(parts)`, the inverse of `Split`. */
  function Join(parts: seq<string>, sep: char): string
    requires |parts| >= 1
  {
    if |parts| == 1 then parts[0] else parts[0] + [sep] + Join(parts[1..], sep)
  }

  lemma {:induction false} JoinSplit(s: string, sep: char)
    ensures Join(Split(s, sep), sep) == s
  {
    if s != [] {
      var rest := Split(s[1..], sep);
      JoinSplit(s[1..], sep);
      if s[0] == sep {
        assert Split(s, sep)[1..] == rest;
      } else {
        var parts := Split(s, sep);
        if |rest| == 1 {
          assert parts == [[s[0]] + rest[0]];
        } else {
          assert parts[1..] == rest[1..];
          assert Join(rest, sep) == rest[0] + [sep] + Join(rest[1..], sep);
        }
      }
    }
  }

  lemma {:induction false} SplitJoin(parts: seq<string>, sep: char)
    requires |parts| >= 1
    requires forall i :: 0 <= i < |parts| ==> sep !in parts[i]
    ensures Split(Join(parts, sep), sep) == parts
    decreases |parts|, |parts[0]|
  {
    var s := Join(parts, sep);
    if parts[0] == [] {
      if |parts| > 1 {
        assert s == [sep] + Join(parts[1..], sep);
        assert s[1..] == Join(parts[1..], sep);
        SplitJoin(parts[1..], sep);
        assert parts == [[]] + parts[1..];
      }
    } else {
      var c := parts[0][0];
      var shorter := [parts[0][1..]] + parts[1..];
      assert forall i :: 0 <= i < |shorter| ==> sep !in shorter[i] by {
        forall i | 0 <= i < |shorter|
          ensures sep !in shorter[i]
        {
          if i == 0 {
            assert sep !in parts[0];
          } else {
            assert shorter[i] == parts[i];
          }
        }
      }
      SplitJoin(shorter, sep);
      assert c != sep by { assert c == parts[0][0]; }
      if |parts| == 1 {
        assert s == parts[0];
        assert s[1..] == Join(shorter, sep);
      } else {
        assert shorter[1..] == parts[1..];
        assert s[1..] == Join(shorter, sep);
      }
      assert [c] + parts[0][1..] == parts[0];
      assert parts == [[c] + shorter[0]] + shorter[1..];
    }
  }

  /** The `F.text.regexp(r"^\d+$")` message filter: one or more ASCII
      decimal digits, optionally followed by one final newline (which `$`
      admits). */
  predicate IsNumeral(s: string) {
    var body := if s != [] && s[|s| - 1] == '\n' then s[..|s| - 1] else s;
    body != [] && AllDigits(body)
  }

  /** The digits of a text the `^\d+$` filter lets through. */
  function NumeralDigits(s: string): (ds: string)
    requires IsNumeral(s)
    ensures ds != [] && AllDigits(ds)
  {
    if s[|s| - 1] == '\n' then s[..|s| - 1] else s
  }

  /** Python's `int(s)` for a decimal numeral: surrounding white space is
      ignored, one optional sign, then at least one ASCII digit. */
  function ParseInt(s: string): (r: Option<int>)
    ensures r.Some? ==> Strip(s) != []
  {
    var t := Strip(s);
    if t == [] then None
    else if t[0] == '-' || t[0] == '+' then
      var ds := t[1..];
      if ds != [] && AllDigits(ds) then
        Some(if t[0] == '-' then -(DigitsValue(ds) as int) else DigitsValue(ds))
      else None
    else if AllDigits(t) then Some(DigitsValue(t))
    else None
  }

  /** Decimal digits of `n` with no leading zero, as `str(n)` writes them. */
  function ShowNat(n: nat): (s: string)
    ensures s != [] && AllDigits(s)
    ensures DigitsValue(s) == n
  {
    if n < 10 then [DigitChar(n)]
    else
      var r := ShowNat(n / 10) + [DigitChar(n % 10)];
      assert r[..|r| - 1] == ShowNat(n / 10);
      r
  }

  /** Python's `str(n)`. */
  function ShowInt(n: int): (s: string)
    ensures s != []
  {
    if n < 0 then "-" + ShowNat(-n) else ShowNat(n)
  }

  lemma ShowIntHasNoSpace(n: int)
    ensures forall i :: 0 <= i < |ShowInt(n)| ==> !IsSpace(ShowInt(n)[i]) && ShowInt(n)[i] != ':'
  {
    var s := ShowInt(n);
    if n < 0 {
      assert AllDigits(s[1..]);
      forall i | 0 <= i < |s| ensures !IsSpace(s[i]) && s[i] != ':' {
        if i > 0 { assert s[i] == s[1..][i - 1]; }
      }
    }
  }

  /** `int(str(n)) == n`: every integer the bot writes into a payload reads
      back as itself. */
  lemma ParseShowInt(n: int)
    ensures ParseInt(ShowInt(n)) == Some(n)
  {
    var s := ShowInt(n);
    ShowIntHasNoSpace(n);
    StripUnchanged(s);
    if n < 0 {
      assert s[1..] == ShowNat(-n);
    }
  }

  lemma DigitsAreTrimmed(ds: string)
    requires ds != [] && AllDigits(ds)
    ensures Strip(ds) == ds
  {
    assert IsDigit(ds[0]) && IsDigit(ds[|ds| - 1]);
    StripUnchanged(ds);
  }

  lemma StripOfNumeral(s: string)
    requires IsNumeral(s)
    ensures Strip(s) == NumeralDigits(s)
  {
    var ds := NumeralDigits(s);
    DigitsAreTrimmed(ds);
    if s[|s| - 1] == '\n' {
      assert s[0] == ds[0] && IsDigit(ds[0]);
      assert SkipSpace(s, 0) == 0;
      assert IsDigit(ds[|ds| - 1]) && s[|s| - 2] == ds[|ds| - 1];
      assert SkipSpaceBack(s, |s| - 1) == |s| - 1;
      assert SkipSpaceBack(s, |s|) == |s| - 1;
      assert s[0..|s| - 1] == ds;
    }
  }

  /** A text the `^\d+$` filter lets through reads, with `int()`, as the
      value of its digits: never negative, never an error. */
  lemma ParseNumeral(s: string)
    requires IsNumeral(s)
    ensures ParseInt(s) == Some(DigitsValue(NumeralDigits(s)) as int)
  {
    var ds := NumeralDigits(s);
    StripOfNumeral(s);
    assert IsDigit(ds[0]);
  }

  /** A callback payload `p:rest` with no colon in `p` splits into `p`
      followed by the pieces of `rest`. */
  lemma {:induction false} SplitAfterHead(p: string, rest: string, sep: char)
    requires sep !in p
    ensures Split(p + [sep] + rest, sep) == [p] + Split(rest, sep)
  {
    var s := p + [sep] + rest;
    if p == [] {
      assert s == [sep] + rest;
      assert s[1..] == rest;
    } else {
      SplitAfterHead(p[1..], rest, sep);
      assert s[1..] == p[1..] + [sep] + rest;
      assert [p[0]] + p[1..] == p;
    }
  }

  /** A text without the separator is one piece. */
  lemma SplitWithoutSep(s: string, sep: char)
    requires sep !in s
    ensures Split(s, sep) == [s]
  {
    SplitJoin([s], sep);
  }

  /** `str(n)` passes the `^\d+$` filter. */
  lemma ShowNatIsNumeral(n: nat)
    ensures IsNumeral(ShowNat(n)) && NumeralDigits(ShowNat(n)) == ShowNat(n)
  {
    var s := ShowNat(n);
    assert IsDigit(s[|s| - 1]);
  }
}
