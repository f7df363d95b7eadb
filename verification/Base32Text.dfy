/** What base32Decode of src/lib/totp.ts does to its input before it reads it: case, padding, white space. */
module Base32Text {

  /**
   * The characters beyond ASCII whose Unicode upper case is made of ASCII capitals. Every other
   * character beyond ASCII is foreign before and after, or its own upper case.
   */
  const CAPITALS: map<int, string> :=
    map[0xDF := "SS", 0x131 := "I", 0x17F := "S",
        0xFB00 := "FF", 0xFB01 := "FI", 0xFB02 := "FL", 0xFB03 := "FFI", 0xFB04 := "FFL", 0xFB05 := "ST", 0xFB06 := "ST"]

  function ToUpper(c: char): string {
    var n := c as int;
    if 'a' <= c <= 'z' then [(n - 32) as char]
    else if n >= 0x80 && n in CAPITALS then CAPITALS[n]
    else [c]
  }

  /** The characters of the regular-expression class \s. */
  predicate IsSpace(c: char) {
    var n := c as int;
    || 9 <= n <= 13 || n == 0x20 || n == 0xA0 || n == 0x1680 || 0x2000 <= n <= 0x200A
    || n == 0x2028 || n == 0x2029 || n == 0x202F || n == 0x205F || n == 0x3000 || n == 0xFEFF
  }

  function Spaceless(c: char): string {
    if IsSpace(c) then "" else [c]
  }

  /** Each character by its text. */
  function Each(s: string, f: char -> string): string {
    if s == "" then "" else Each(s[..|s| - 1], f) + f(s[|s| - 1])
  }

  function Upper(s: string): string {
    Each(s, ToUpper)
  }

  function DropSpaces(s: string): string {
    Each(s, Spaceless)
  }

  function StripPadding(s: string): string {
    if s != "" && s[|s| - 1] == '=' then StripPadding(s[..|s| - 1]) else s
  }

  /** `input.toUpperCase().replace(/=+$/, '').replace(/\s/g, '')` */
  function Clean(input: string): string {
    DropSpaces(StripPadding(Upper(input)))
  }

  // ----- character by character

  lemma {:induction false} EachAppend(a: string, b: string, f: char -> string)
    ensures Each(a + b, f) == Each(a, f) + Each(b, f)
    decreases |b|
  {
    if b == "" {
      assert a + b == a;
    } else {
      var n := |b| - 1;
      assert (a + b)[..|a + b| - 1] == a + b[..n];
      EachAppend(a, b[..n], f);
    }
  }

  lemma EachOne(c: char, f: char -> string)
    ensures Each([c], f) == f(c)
  {
    assert [c][..0] == "";
  }

  lemma {:induction false} EachKeeps(s: string, f: char -> string)
    requires forall i :: 0 <= i < |s| ==> f(s[i]) == [s[i]]
    ensures Each(s, f) == s
  {
    if s != "" {
      var init := s[..|s| - 1];
      forall i | 0 <= i < |init| ensures f(init[i]) == [init[i]] {
        assert init[i] == s[i];
      }
      EachKeeps(init, f);
      assert s == init + [s[|s| - 1]];
    }
  }

  predicate IsCapitalOrDigit(c: char) {
    'A' <= c <= 'Z' || '0' <= c <= '9'
  }

  lemma AlreadyClean(s: string)
    requires forall i :: 0 <= i < |s| ==> IsCapitalOrDigit(s[i])
    ensures Clean(s) == s
  {
    forall i | 0 <= i < |s| ensures ToUpper(s[i]) == [s[i]] && Spaceless(s[i]) == [s[i]] {
      assert IsCapitalOrDigit(s[i]);
    }
    EachKeeps(s, ToUpper);
    EachKeeps(s, Spaceless);
    assert StripPadding(s) == s;
  }

  // ----- what makes no difference

  function Equals(n: nat): (s: string)
    ensures |s| == n
  {
    if n == 0 then "" else Equals(n - 1) + "="
  }

  lemma {:induction false} PaddingGoes(a: string, n: nat)
    requires a == "" || a[|a| - 1] != '='
    ensures StripPadding(a + Equals(n)) == a
  {
    if n == 0 {
      assert a + Equals(0) == a;
    } else {
      assert (a + Equals(n))[..|a + Equals(n)| - 1] == a + Equals(n - 1);
      PaddingGoes(a, n - 1);
    }
  }

  lemma {:induction false} UpperPadding(n: nat)
    ensures Upper(Equals(n)) == Equals(n)
  {
    if n > 0 {
      assert Equals(n)[..n - 1] == Equals(n - 1);
      UpperPadding(n - 1);
      assert ToUpper('=') == "=";
    }
  }

  lemma NoPaddingStays(s: string)
    requires s == "" || s[|s| - 1] != '='
    ensures StripPadding(s) == s
  {
  }

  /** The upper case of the text is empty or ends in something other than padding. */
  predicate EndsBare(s: string) {
    Upper(s) == "" || Upper(s)[|Upper(s)| - 1] != '='
  }

  /** Padding at the end makes no difference. */
  lemma PaddingIsIgnored(s: string, n: nat)
    requires EndsBare(s)
    ensures Clean(s + Equals(n)) == Clean(s)
  {
    EachAppend(s, Equals(n), ToUpper);
    UpperPadding(n);
    PaddingGoes(Upper(s), n);
    NoPaddingStays(Upper(s));
  }

  lemma CleanAround(a: string, m: string, b: string)
    requires Upper(b) != "" && EndsBare(b)
    ensures Clean(a + m + b) == DropSpaces(Upper(a)) + DropSpaces(Upper(m)) + DropSpaces(Upper(b))
  {
    EachAppend(a + m, b, ToUpper);
    EachAppend(a, m, ToUpper);
    NoPaddingStays(Upper(a + m + b));
    EachAppend(Upper(a) + Upper(m), Upper(b), Spaceless);
    EachAppend(Upper(a), Upper(m), Spaceless);
  }

  /** The white space of ECMAScript. */
  predicate IsEcmaSpace(n: int) {
    || n == 0x09 || n == 0x0A || n == 0x0B || n == 0x0C || n == 0x0D || n == 0x20 || n == 0xA0 || n == 0x1680
    || n == 0x2000 || n == 0x2001 || n == 0x2002 || n == 0x2003 || n == 0x2004 || n == 0x2005 || n == 0x2006
    || n == 0x2007 || n == 0x2008 || n == 0x2009 || n == 0x200A || n == 0x2028 || n == 0x2029 || n == 0x202F
    || n == 0x205F || n == 0x3000 || n == 0xFEFF
  }

  /** White space makes no difference before the last character that is no padding. */
  lemma SpaceIsIgnored(a: string, c: char, b: string)
    requires Upper(b) != "" && EndsBare(b) && IsEcmaSpace(c as int)
    ensures Clean(a + [c] + b) == Clean(a + b)
  {
    CleanAround(a, [c], b);
    CleanAround(a, "", b);
    EachOne(c, ToUpper);
    SpaceIsOwnCapital(c);
    EachOne(c, Spaceless);
    assert a + "" == a;
  }

  lemma SpaceIsOwnCapital(c: char)
    requires IsEcmaSpace(c as int)
    ensures ToUpper(c) == [c] && IsSpace(c)
  {
  }

  /** Nor does the case of a letter. */
  lemma CaseIsIgnored(a: string, k: nat, b: string)
    requires Upper(b) != "" && EndsBare(b) && k < 26
    ensures Clean(a + [(97 + k) as char] + b) == Clean(a + [(65 + k) as char] + b)
  {
    var small, capital := (97 + k) as char, (65 + k) as char;
    CleanAround(a, [small], b);
    CleanAround(a, [capital], b);
    EachOne(small, ToUpper);
    EachOne(capital, ToUpper);
    CapitalOf(k);
  }

  lemma CapitalOf(k: nat)
    requires k < 26
    ensures ToUpper((97 + k) as char) == [(65 + k) as char] && ToUpper((65 + k) as char) == [(65 + k) as char]
  {
  }

  /** The table: the sharp s, the dotless i, the long s and seven ligatures. */
  lemma LigaturesSpellOut()
    ensures ToUpper(0xDF as char) == "SS" && ToUpper(0x131 as char) == "I" && ToUpper(0x17F as char) == "S"
    ensures ToUpper(0xFB00 as char) == "FF" && ToUpper(0xFB01 as char) == "FI" && ToUpper(0xFB02 as char) == "FL"
    ensures ToUpper(0xFB03 as char) == "FFI" && ToUpper(0xFB04 as char) == "FFL"
    ensures ToUpper(0xFB05 as char) == "ST" && ToUpper(0xFB06 as char) == "ST"
  {
  }

  /** Every other character is left where it is, unless it is one of the ligatures and letters of the table. */
  lemma OthersStay(c: char)
    requires !IsEcmaSpace(c as int) && !('a' <= c <= 'z') && c as int !in CAPITALS
    ensures ToUpper(c) == [c] && Spaceless(c) == [c]
  {
  }
}
