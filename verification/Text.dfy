/** Text helpers with the meaning Python gives them: whitespace trimming and decimal rendering. */
module Text {

  datatype Option<+T> = None | Some(value: T)

  /** The characters `str.isspace` accepts, which is what `str.strip` removes. */
  predicate IsSpace(c: char) {
    || '\t' <= c <= '\r'
    || '\U{1C}' <= c <= ' '
    || c == '\U{85}'
    || c == '\U{A0}'
    || c == '\U{1680}'
    || '\U{2000}' <= c <= '\U{200A}'
    || c == '\U{2028}'
    || c == '\U{2029}'
    || c == '\U{202F}'
    || c == '\U{205F}'
    || c == '\U{3000}'
  }

  function StripLeft(s: string): (r: string)
    ensures r == "" || !IsSpace(r[0])
  {
    if s != "" && IsSpace(s[0]) then StripLeft(s[1..]) else s
  }

  function StripRight(s: string): (r: string)
    ensures r <= s && (r == "" || !IsSpace(r[|r| - 1]))
  {
    if s != "" && IsSpace(s[|s| - 1]) then StripRight(s[..|s| - 1]) else s
  }

  function Strip(s: string): (r: string)
    ensures Stripped(r)
  {
    StripRight(StripLeft(s))
  }

  predicate Stripped(s: string) {
    s == "" || (!IsSpace(s[0]) && !IsSpace(s[|s| - 1]))
  }

  lemma StripIdentity(s: string)
    requires Stripped(s)
    ensures Strip(s) == s
  {
  }

  /** One of the characters that count as blank. */
  ghost predicate Blank(c: char) {
    || c in "\t\n\U{0B}\U{0C}\r\U{1C}\U{1D}\U{1E}\U{1F} \U{85}\U{A0}\U{1680}"
    || c in "\U{2000}\U{2001}\U{2002}\U{2003}\U{2004}\U{2005}\U{2006}\U{2007}\U{2008}\U{2009}\U{200A}"
    || c in "\U{2028}\U{2029}\U{202F}\U{205F}\U{3000}"
  }

  lemma BlanksListed(c: char)
    ensures IsSpace(c) <==> Blank(c)
  {
  }

  lemma {:induction false} LeftStripped(s: string) returns (n: nat)
    ensures n <= |s| && StripLeft(s) == s[n..] && forall k :: 0 <= k < n ==> IsSpace(s[k])
    ensures n == |s| || !IsSpace(s[n])
  {
    n := 0;
    if s != "" && IsSpace(s[0]) {
      var m := LeftStripped(s[1..]);
      assert forall k :: 0 < k <= m ==> s[k] == s[1..][k - 1];
      n := m + 1;
    }
  }

  lemma {:induction false} RightStripped(s: string)
    ensures forall c :: c in s[|StripRight(s)|..] ==> IsSpace(c)
    decreases |s|
  {
    if s != "" && IsSpace(s[|s| - 1]) {
      var front := s[..|s| - 1];
      RightStripped(front);
      assert s[|StripRight(s)|..] == front[|StripRight(s)|..] + [s[|s| - 1]];
    }
  }

  /** Trimming takes off blanks at both ends, and all of them. */
  lemma StripExactly(s: string) returns (left: string, right: string)
    ensures s == left + Strip(s) + right
    ensures forall c :: c in left || c in right ==> Blank(c)
    ensures Strip(s) != "" ==> !Blank(Strip(s)[0]) && !Blank(Strip(s)[|Strip(s)| - 1])
  {
    hide Blank, IsSpace, StripLeft, StripRight;
    var n := LeftStripped(s);
    var rest := StripLeft(s);
    RightStripped(rest);
    left, right := s[..n], rest[|StripRight(rest)|..];
    assert rest == StripRight(rest) + right;
    forall c | c in left || c in right ensures Blank(c) { BlanksListed(c); }
    if Strip(s) != "" {
      BlanksListed(Strip(s)[0]);
      BlanksListed(Strip(s)[|Strip(s)| - 1]);
    }
  }

  function Digit(d: nat): char
    requires d < 10
  {
    '0' + d as char
  }

  /** Decimal rendering of a natural number. */
  function Decimal(n: nat): (r: string)
    ensures r != "" && forall c :: c in r ==> '0' <= c <= '9'
  {
    if n < 10 then [Digit(n)] else Decimal(n / 10) + [Digit(n % 10)]
  }

  /** How many decimal digits a natural number has. */
  function Digits(n: nat): nat {
    if n < 10 then 1 else Digits(n / 10) + 1
  }

  /** The number a decimal text stands for. */
  function Value(digits: string): int {
    if digits == "" then 0 else Value(digits[..|digits| - 1]) * 10 + digits[|digits| - 1] as int - '0' as int
  }

  /** The decimal text of a number reads as that number, and has no more digits than it needs. */
  lemma {:induction false} DecimalDigits(n: nat)
    ensures |Decimal(n)| == Digits(n) && Value(Decimal(n)) == n
  {
    if n >= 10 {
      DecimalDigits(n / 10);
      assert Decimal(n)[..|Decimal(n)| - 1] == Decimal(n / 10);
    } else {
      assert Decimal(n)[..0] == "";
    }
  }

  lemma DecimalStripped(n: nat)
    ensures Stripped(Decimal(n))
  {
  }

  predicate NoDuplicates(ss: seq<string>) {
    forall i, j :: 0 <= i < j < |ss| ==> ss[i] != ss[j]
  }

  /** `a` is part of `b`, in the same order. */
  ghost predicate InOrder(a: seq<string>, b: seq<string>) {
    a == [] || (b != [] && ((a[0] == b[0] && InOrder(a[1..], b[1..])) || InOrder(a, b[1..])))
  }
}
