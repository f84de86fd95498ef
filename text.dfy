/**
 * Character and string helpers with Python's semantics where the engine uses them:
 * str.lower() (ASCII letters), str.strip() (Python's whitespace set), decimal
 * formatting of non-negative integers, and str comparison (code-point order).
 */
module Text {

  /** Python's str.lower() on one character; only A-Z are changed in this model. */
  function LowerChar(c: char): char
  {
    if 'A' <= c <= 'Z' then (c as int + 32) as char else c
  }

  function Lower(s: string): (r: string)
    ensures |r| == |s|
    ensures forall i :: 0 <= i < |s| ==> r[i] == LowerChar(s[i])
  {
    seq(|s|, i requires 0 <= i < |s| => LowerChar(s[i]))
  }

  /** Lower-casing turns no character into whitespace. */
  lemma LowerCharKeepsNonSpace(c: char)
    requires !IsSpace(c)
    ensures !IsSpace(LowerChar(c))
  {
  }

  /** Lowering twice changes nothing more than lowering once. */
  lemma LowerIdempotent(s: string)
    ensures Lower(Lower(s)) == Lower(s)
  {
  }

  /** The characters for which Python's str.isspace() holds. */
  predicate IsSpace(c: char)
  {
    var n := c as int;
    || 9 <= n <= 13 || 28 <= n <= 32 || n == 0x85 || n == 0xA0 || n == 0x1680
    || 0x2000 <= n <= 0x200A || n == 0x2028 || n == 0x2029 || n == 0x202F
    || n == 0x205F || n == 0x3000
  }

  /** str.lstrip(): drop leading whitespace. */
  function StripLeft(s: string): (r: string)
    ensures |r| <= |s| && r == s[|s| - |r|..]
    ensures r == [] || !IsSpace(r[0])
    ensures forall i :: 0 <= i < |s| - |r| ==> IsSpace(s[i])
  {
    if s != [] && IsSpace(s[0]) then StripLeft(s[1..]) else s
  }

  /** str.rstrip(): drop trailing whitespace. */
  function StripRight(s: string): (r: string)
    ensures |r| <= |s| && r == s[..|r|]
    ensures r == [] || !IsSpace(r[|r| - 1])
    ensures forall i :: |r| <= i < |s| ==> IsSpace(s[i])
  {
    if s != [] && IsSpace(s[|s| - 1]) then StripRight(s[..|s| - 1]) else s
  }

  /** str.strip(). */
  function Strip(s: string): (r: string)
  {
    StripRight(StripLeft(s))
  }

  /** Strip keeps a contiguous piece of its input, cut only at whitespace, and the piece
      neither starts nor ends with whitespace. */
  lemma StripIsTrimmedSlice(s: string)
    ensures exists i, j ::
              && 0 <= i <= j <= |s| && Strip(s) == s[i..j]
              && (forall k :: 0 <= k < i ==> IsSpace(s[k]))
              && (forall k :: j <= k < |s| ==> IsSpace(s[k]))
    ensures Strip(s) == [] || (!IsSpace(Strip(s)[0]) && !IsSpace(Strip(s)[|Strip(s)| - 1]))
  {
    var i, j := StripBounds(s);
  }

  /** Where Strip cuts s. */
  lemma StripBounds(s: string) returns (i: nat, j: nat)
    ensures i <= j <= |s| && Strip(s) == s[i..j]
    ensures forall k :: 0 <= k < i ==> IsSpace(s[k])
    ensures forall k :: j <= k < |s| ==> IsSpace(s[k])
  {
    i := |s| - |StripLeft(s)|;
    j := StripRightOfSuffix(s, i);
  }

  /** Rstrip of a suffix of s keeps the slice of s up to j, and what it cuts off is a
      tail of s made of whitespace. */
  lemma StripRightOfSuffix(s: string, i: nat) returns (j: nat)
    requires i <= |s|
    ensures i <= j <= |s| && StripRight(s[i..]) == s[i..j]
    ensures forall k :: j <= k < |s| ==> IsSpace(s[k])
  {
    var l := s[i..];
    j := i + |StripRight(l)|;
    SliceOfSuffix(s, i, |StripRight(l)|);
    forall k | j <= k < |s| ensures IsSpace(s[k]) {
      assert s[k] == l[k - i];
    }
  }

  /** A prefix of a suffix is a slice. */
  lemma SliceOfSuffix(s: string, i: nat, m: nat)
    requires i + m <= |s|
    ensures s[i..][..m] == s[i..i + m]
  {
  }

  /** A string that neither starts nor ends with whitespace is left as it is. */
  lemma StripKeeps(s: string)
    requires s == [] || (!IsSpace(s[0]) && !IsSpace(s[|s| - 1]))
    ensures Strip(s) == s
  {
    assert StripLeft(s) == s;
  }

  /** A string with exactly one whitespace character at each end loses just those two. */
  lemma StripOneEachSide(s: string)
    requires |s| >= 3 && IsSpace(s[0]) && !IsSpace(s[1])
    requires IsSpace(s[|s| - 1]) && !IsSpace(s[|s| - 2])
    ensures Strip(s) == s[1..|s| - 1]
  {
    assert StripLeft(s[1..]) == s[1..];
    assert StripRight(s[1..][..|s| - 2]) == s[1..][..|s| - 2];
    assert s[1..][..|s| - 2] == s[1..|s| - 1];
  }

  /** Stripping is idempotent. */
  lemma StripIdempotent(s: string)
    ensures Strip(Strip(s)) == Strip(s)
  {
    var t := Strip(s);
    StripIsTrimmedSlice(s);
    if t != [] {
      assert StripLeft(t) == t;
      assert StripRight(t) == t;
    }
  }

  function DigitChar(d: nat): (c: char)
    requires d < 10
    ensures '0' <= c <= '9'
  {
    ('0' as int + d) as char
  }

  predicate IsDigits(s: string)
  {
    forall i :: 0 <= i < |s| ==> '0' <= s[i] <= '9'
  }

  /** Python's str(n) / f"{n}" for a non-negative integer: decimal, no padding. */
  function NatToString(n: nat): (r: string)
    ensures |r| >= 1 && IsDigits(r)
    ensures n >= 10 ==> r[0] != '0'
  {
    if n < 10 then [DigitChar(n)] else NatToString(n / 10) + [DigitChar(n % 10)]
  }

  /** The value of a string of decimal digits (int(s) for such strings). */
  function DecimalValue(s: string): nat
    requires IsDigits(s)
  {
    if s == [] then 0 else DecimalValue(s[..|s| - 1]) * 10 + (s[|s| - 1] as int - '0' as int)
  }

  /** Reading back what NatToString wrote gives the number again. */
  lemma {:induction false} DecimalValueOfNatToString(n: nat)
    ensures DecimalValue(NatToString(n)) == n
  {
    if n >= 10 {
      var s := NatToString(n);
      assert s[..|s| - 1] == NatToString(n / 10);
      DecimalValueOfNatToString(n / 10);
    }
  }

  /** Different numbers are written differently. */
  lemma NatToStringInjective(a: nat, b: nat)
    ensures NatToString(a) == NatToString(b) ==> a == b
  {
    DecimalValueOfNatToString(a);
    DecimalValueOfNatToString(b);
  }

  /** Two-digit zero-padded decimal, as strftime's %m writes a month. */
  function TwoDigits(n: nat): (r: string)
    requires n < 100
    ensures |r| == 2 && IsDigits(r)
  {
    [DigitChar(n / 10), DigitChar(n % 10)]
  }

  /** Python's a <= b on str: lexicographic by code point, a proper prefix first. */
  predicate LexLe(a: string, b: string)
  {
    if a == [] then true
    else if b == [] then false
    else if a[0] != b[0] then a[0] < b[0]
    else LexLe(a[1..], b[1..])
  }

  lemma {:induction false} LexLeTotal(a: string, b: string)
    ensures LexLe(a, b) || LexLe(b, a)
  {
    if a != [] && b != [] && a[0] == b[0] {
      LexLeTotal(a[1..], b[1..]);
    }
  }

  lemma {:induction false} LexLeTransitive(a: string, b: string, c: string)
    requires LexLe(a, b) && LexLe(b, c)
    ensures LexLe(a, c)
  {
    if a != [] && b != [] && c != [] && a[0] == b[0] && b[0] == c[0] {
      LexLeTransitive(a[1..], b[1..], c[1..]);
    }
  }

  lemma {:induction false} LexLeAntisymmetric(a: string, b: string)
    requires LexLe(a, b) && LexLe(b, a)
    ensures a == b
  {
    if a != [] && b != [] {
      LexLeAntisymmetric(a[1..], b[1..]);
    }
  }
}
