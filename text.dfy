/**
 * The JavaScript string built-ins the application relies on, with the
 * meaning ECMAScript gives them: truthiness and `||` on possibly absent
 * strings, `trim`, `toLowerCase`, `includes`, `split(c)[0]`,
 * `split(c).pop()`, `filter(Boolean).join(sep)`, `String(n)`, `length`
 * and string ordering.
 */
module Text {
  import opened Wrappers

  // ---------------------------------------------------------------------
  // Truthiness

  /** `!!s` for a string that may be absent: `undefined`, `null` and "" are falsy. */
  predicate Truthy(o: Option<string>) {
    o.Some? && o.value != ""
  }

  /** `a || b` on possibly absent strings. */
  function Or(a: Option<string>, b: Option<string>): Option<string> {
    if Truthy(a) then a else b
  }

  /** `a || d` where `d` is a string literal. */
  function OrElse(a: Option<string>, d: string): string {
    if Truthy(a) then a.value else d
  }

  /** `a || ''`. */
  function OrEmpty(a: Option<string>): string {
    OrElse(a, "")
  }

  // ---------------------------------------------------------------------
  // toLowerCase (ASCII letters only)

  function LowerChar(c: char): char {
    if 'A' <= c <= 'Z' then (c as int + 32) as char else c
  }

  /** `s.toLowerCase()`, on the letters A to Z. */
  function ToLower(s: string): string {
    seq(|s|, i requires 0 <= i < |s| => LowerChar(s[i]))
  }

  // ---------------------------------------------------------------------
  // trim

  /** The characters `String.prototype.trim` removes: WhiteSpace and LineTerminator. */
  predicate IsSpace(c: char) {
    || c == '\t' || c == '\n' || c == '\U{B}' || c == '\U{C}' || c == '\r' || c == ' '
    || c == '\U{A0}' || c == '\U{1680}' || ('\U{2000}' <= c <= '\U{200A}')
    || c == '\U{2028}' || c == '\U{2029}' || c == '\U{202F}' || c == '\U{205F}'
    || c == '\U{3000}' || c == '\U{FEFF}'
  }

  predicate Blank(s: string) {
    forall i :: 0 <= i < |s| ==> IsSpace(s[i])
  }

  /** `s.trimStart()`: the suffix of `s` left after its leading white space. */
  function TrimStart(s: string): (r: string)
    ensures |r| <= |s| && r == s[|s| - |r|..]
    ensures Blank(s[..|s| - |r|])
    ensures r != [] ==> !IsSpace(r[0])
  {
    if s != [] && IsSpace(s[0]) then
      var r := TrimStart(s[1..]);
      assert s[..|s| - |r|] == [s[0]] + s[1..][..|s| - 1 - |r|];
      r
    else
      s
  }

  /** `s.trimEnd()`: the prefix of `s` left before its trailing white space. */
  function TrimEnd(s: string): (r: string)
    ensures |r| <= |s| && r == s[..|r|]
    ensures Blank(s[|r|..])
    ensures r != [] ==> !IsSpace(r[|r| - 1])
  {
    if s != [] && IsSpace(s[|s| - 1]) then
      var r := TrimEnd(s[..|s| - 1]);
      assert s[|r|..] == s[..|s| - 1][|r|..] + [s[|s| - 1]];
      r
    else
      s
  }

  /** `s.trim()` */
  function Trim(s: string): string {
    TrimEnd(TrimStart(s))
  }

  /**
   * `s.trim()` is empty exactly when `s` is blank, and otherwise starts and
   * ends with a character that is not white space.
   */
  lemma TrimEmptyIffBlank(s: string)
    ensures Trim(s) == "" <==> Blank(s)
    ensures Trim(s) != "" ==> !IsSpace(Trim(s)[0]) && !IsSpace(Trim(s)[|Trim(s)| - 1])
  {
    var t := TrimStart(s);
    var k := |s| - |t|;
    var r := TrimEnd(t);
    if r != "" {
      assert r[0] == t[0];
      assert t[0] == s[k];
    } else {
      assert Blank(t[0..]);
      forall i | 0 <= i < |s| ensures IsSpace(s[i]) {
        if i < k { assert s[i] == s[..k][i]; } else { assert s[i] == t[0..][i - k]; }
      }
    }
  }

  // ---------------------------------------------------------------------
  // includes

  /** `hay.includes(needle)` */
  predicate Includes(hay: string, needle: string)
    decreases |hay|
  {
    needle <= hay || (hay != [] && Includes(hay[1..], needle))
  }

  ghost predicate OccursAt(hay: string, needle: string, i: int) {
    0 <= i && i + |needle| <= |hay| && hay[i..i + |needle|] == needle
  }

  /** `includes` holds exactly when the needle occurs at some position of the haystack. */
  lemma {:induction false} IncludesIff(hay: string, needle: string)
    ensures Includes(hay, needle) <==> exists i :: OccursAt(hay, needle, i)
    decreases |hay|
  {
    if needle <= hay {
      assert OccursAt(hay, needle, 0);
    } else if hay != [] {
      IncludesIff(hay[1..], needle);
      if Includes(hay[1..], needle) {
        var i :| OccursAt(hay[1..], needle, i);
        assert hay[i + 1..i + 1 + |needle|] == hay[1..][i..i + |needle|];
        assert OccursAt(hay, needle, i + 1);
      }
      if exists i :: OccursAt(hay, needle, i) {
        var i :| OccursAt(hay, needle, i);
        if i > 0 {
          assert hay[1..][i - 1..i - 1 + |needle|] == hay[i..i + |needle|];
          assert OccursAt(hay[1..], needle, i - 1);
        }
      }
    }
  }

  // ---------------------------------------------------------------------
  // split

  /** `s.split(c)[0]`: the part of `s` before the first `c`, all of `s` when it has none. */
  function BeforeFirst(s: string, c: char): (r: string)
    ensures c !in r
    ensures r <= s
    ensures |r| < |s| ==> s[|r|] == c
  {
    if s == [] || s[0] == c then [] else [s[0]] + BeforeFirst(s[1..], c)
  }

  /** `s.split(c).pop()`: the part of `s` after the last `c`, all of `s` when it has none. */
  function AfterLast(s: string, c: char): (r: string)
    ensures c !in r
    ensures |r| <= |s| && r == s[|s| - |r|..]
    ensures |r| < |s| ==> s[|s| - |r| - 1] == c
  {
    if s == [] || s[|s| - 1] == c then
      []
    else
      var r := AfterLast(s[..|s| - 1], c);
      assert s[|s| - |r| - 1..] == s[..|s| - 1][|s| - 1 - |r|..] + [s[|s| - 1]];
      r + [s[|s| - 1]]
  }

  /** A string without `c` is one piece: `split(c)` gives it back whole. */
  lemma AfterLastWhole(s: string, c: char)
    requires c !in s
    ensures AfterLast(s, c) == s && BeforeFirst(s, c) == s
  {
  }

  /** Splitting at the first `c` of `s + [c] + t`, when `s` has none, gives `s`. */
  lemma {:induction false} BeforeFirstAppend(s: string, c: char, t: string)
    requires c !in s
    ensures BeforeFirst(s + [c] + t, c) == s
  {
    if s != [] {
      BeforeFirstAppend(s[1..], c, t);
      assert (s + [c] + t)[1..] == s[1..] + [c] + t;
    }
  }

  /** The piece after the last `c` of `s + [c] + t`, when `t` has none, is `t`. */
  lemma {:induction false} AfterLastAppend(s: string, c: char, t: string)
    requires c !in t
    ensures AfterLast(s + [c] + t, c) == t
  {
    if t != [] {
      var u := t[..|t| - 1];
      AfterLastAppend(s, c, u);
      assert (s + [c] + t)[..|s + [c] + t| - 1] == s + [c] + u;
      assert t == u + [t[|t| - 1]];
    }
  }

  /** A character that is not a Latin letter: `toLowerCase` neither changes it nor produces it. */
  predicate NonLetter(c: char) {
    !('A' <= c <= 'Z') && !('a' <= c <= 'z')
  }

  /** Lowercasing commutes with splitting at a character that is not a letter. */
  lemma LowerBeforeFirst(s: string, c: char)
    requires NonLetter(c)
    ensures ToLower(BeforeFirst(s, c)) == BeforeFirst(ToLower(s), c)
  {
    var r := BeforeFirst(s, c);
    LowerKeepsNonLetterOut(r, c);
    assert ToLower(s)[..|r|] == ToLower(r);
    BeforeFirstUnique(ToLower(s), c, ToLower(r));
  }

  /** The three facts `BeforeFirst` ensures pin its result down. */
  lemma {:induction false} BeforeFirstUnique(s: string, c: char, r: string)
    requires c !in r && r <= s
    requires |r| < |s| ==> s[|r|] == c
    ensures r == BeforeFirst(s, c)
  {
    if s != [] && s[0] != c {
      assert r != [];
      assert r[0] == s[0];
      BeforeFirstUnique(s[1..], c, r[1..]);
      assert r == [r[0]] + r[1..];
    }
  }

  /** The three facts `AfterLast` ensures pin its result down. */
  lemma AfterLastUnique(s: string, c: char, r: string)
    requires c !in r && |r| <= |s| && r == s[|s| - |r|..]
    requires |r| < |s| ==> s[|s| - |r| - 1] == c
    ensures r == AfterLast(s, c)
  {
  }

  lemma LowerAfterLast(s: string, c: char)
    requires NonLetter(c)
    ensures ToLower(AfterLast(s, c)) == AfterLast(ToLower(s), c)
  {
    var r := AfterLast(s, c);
    var k := |s| - |r|;
    LowerSuffix(s, k);
    LowerKeepsNonLetterOut(r, c);
    AfterLastUnique(ToLower(s), c, ToLower(r));
  }

  lemma LowerSuffix(s: string, k: nat)
    requires k <= |s|
    ensures ToLower(s[k..]) == ToLower(s)[k..]
  {
  }

  lemma LowerKeepsNonLetterOut(s: string, c: char)
    requires NonLetter(c) && c !in s
    ensures c !in ToLower(s)
  {
    assert forall i :: 0 <= i < |s| ==> ToLower(s)[i] == LowerChar(s[i]);
  }

  /** Lowercasing twice is lowercasing once. */
  lemma ToLowerIdempotent(s: string)
    ensures ToLower(ToLower(s)) == ToLower(s)
  {
  }

  // ---------------------------------------------------------------------
  // filter(Boolean).join(sep)

  /** `parts.filter(Boolean)`: the present, non-empty parts, in order. */
  function Compact(parts: seq<Option<string>>): (r: seq<string>)
    ensures |r| <= |parts|
    ensures forall x :: x in r <==> x != "" && Some(x) in parts
  {
    if parts == [] then
      []
    else
      var rest := Compact(parts[1..]);
      assert forall x :: Some(x) in parts <==> Some(x) == parts[0] || Some(x) in parts[1..];
      (if Truthy(parts[0]) then [parts[0].value] else []) + rest
  }

  /** `parts.join(sep)` */
  function Join(parts: seq<string>, sep: string): string {
    if |parts| == 0 then ""
    else if |parts| == 1 then parts[0]
    else parts[0] + sep + Join(parts[1..], sep)
  }

  /**
   * A character occurs in a join exactly when it occurs in one of the parts,
   * or in the separator and there are at least two parts.
   */
  lemma {:induction false} JoinCharIn(parts: seq<string>, sep: string, c: char)
    ensures c in Join(parts, sep) <==> (exists p :: p in parts && c in p) || (|parts| >= 2 && c in sep)
  {
    if |parts| == 1 {
      assert parts[0] in parts;
    } else if |parts| >= 2 {
      JoinCharIn(parts[1..], sep, c);
      assert forall p :: p in parts <==> p == parts[0] || p in parts[1..];
    }
  }

  /** A join of non-empty parts is empty only when there are no parts. */
  lemma JoinEmpty(parts: seq<string>, sep: string)
    requires forall i :: 0 <= i < |parts| ==> parts[i] != ""
    ensures Join(parts, sep) == "" <==> parts == []
  {
  }

  /** The separator of the list screens' meta lines: a bullet between spaces. */
  const Bullet := " \U{2022} "

  /** `[...parts].filter(Boolean).join(' \U{2022} ')` */
  function MetaLine(parts: seq<Option<string>>): string {
    Join(Compact(parts), Bullet)
  }

  /**
   * A meta line is empty exactly when no part is present, and shows a
   * bullet exactly when a part does or at least two parts are present.
   */
  lemma MetaLineShape(parts: seq<Option<string>>)
    ensures MetaLine(parts) == "" <==> forall i :: 0 <= i < |parts| ==> !Truthy(parts[i])
    ensures '\U{2022}' in MetaLine(parts) <==>
      (exists x :: x in Compact(parts) && '\U{2022}' in x) || |Compact(parts)| >= 2
  {
    var c := Compact(parts);
    assert forall i :: 0 <= i < |c| ==> c[i] in c;
    JoinEmpty(c, Bullet);
    JoinCharIn(c, Bullet, '\U{2022}');
    if c != [] {
      assert c[0] in c;
    }
    if exists i :: 0 <= i < |parts| && Truthy(parts[i]) {
      var i :| 0 <= i < |parts| && Truthy(parts[i]);
      assert parts[i].value in c;
    }
  }

  /** Of three parts, `filter(Boolean)` keeps the present ones in their order. */
  lemma CompactThree(a: Option<string>, b: Option<string>, c: Option<string>)
    ensures Compact([a, b, c]) ==
      (if Truthy(a) then [a.value] else []) + (if Truthy(b) then [b.value] else []) +
      (if Truthy(c) then [c.value] else [])
  {
    assert Compact([c]) == (if Truthy(c) then [c.value] else []) by { assert [c][1..] == []; }
    assert Compact([b, c]) == (if Truthy(b) then [b.value] else []) + Compact([c]) by {
      assert [b, c][1..] == [c];
    }
    assert Compact([a, b, c]) == (if Truthy(a) then [a.value] else []) + Compact([b, c]) by {
      assert [a, b, c][1..] == [b, c];
    }
  }

  /** Two parts are joined with one separator. */
  lemma JoinTwo(x: string, y: string, sep: string)
    ensures Join([x, y], sep) == x + sep + y
  {
    assert [x, y][1..] == [y];
  }

  /** Three parts are joined with a separator between each two. */
  lemma JoinOfThree(x: string, y: string, z: string, sep: string)
    ensures Join([x, y, z], sep) == x + sep + y + sep + z
  {
    assert [x, y, z][1..] == [y, z];
    JoinTwo(y, z, sep);
  }

  /**
   * The join of three optional parts: the present ones, in their order,
   * with the separator between each two and nowhere else.
   */
  lemma JoinThree(a: Option<string>, b: Option<string>, c: Option<string>, sep: string)
    ensures var line := Join(Compact([a, b, c]), sep);
      && (Truthy(a) && Truthy(b) && Truthy(c) ==> line == a.value + sep + b.value + sep + c.value)
      && (Truthy(a) && Truthy(b) && !Truthy(c) ==> line == a.value + sep + b.value)
      && (Truthy(a) && !Truthy(b) && Truthy(c) ==> line == a.value + sep + c.value)
      && (!Truthy(a) && Truthy(b) && Truthy(c) ==> line == b.value + sep + c.value)
      && (Truthy(a) && !Truthy(b) && !Truthy(c) ==> line == a.value)
      && (!Truthy(a) && Truthy(b) && !Truthy(c) ==> line == b.value)
      && (!Truthy(a) && !Truthy(b) && Truthy(c) ==> line == c.value)
      && (!Truthy(a) && !Truthy(b) && !Truthy(c) ==> line == "")
  {
    CompactThree(a, b, c);
    var cs := Compact([a, b, c]);
    if Truthy(a) && Truthy(b) && Truthy(c) {
      assert cs == [a.value, b.value, c.value];
      JoinOfThree(a.value, b.value, c.value, sep);
    } else if Truthy(a) && Truthy(b) {
      assert cs == [a.value, b.value];
      JoinTwo(a.value, b.value, sep);
    } else if Truthy(a) && Truthy(c) {
      assert cs == [a.value, c.value];
      JoinTwo(a.value, c.value, sep);
    } else if Truthy(b) && Truthy(c) {
      assert cs == [b.value, c.value];
      JoinTwo(b.value, c.value, sep);
    } else if Truthy(a) {
      assert cs == [a.value];
    } else if Truthy(b) {
      assert cs == [b.value];
    } else if Truthy(c) {
      assert cs == [c.value];
    } else {
      assert cs == [];
    }
  }

  // ---------------------------------------------------------------------
  // String(n) for a non-negative integer

  function DigitChar(d: nat): (c: char)
    requires d < 10
  {
    ('0' as int + d) as char
  }

  predicate IsDigits(s: string) {
    forall i :: 0 <= i < |s| ==> '0' <= s[i] <= '9'
  }

  /** `String(n)`: the decimal numeral of `n`, without leading zeros. */
  function Decimal(n: nat): (r: string)
    ensures r != "" && IsDigits(r)
    ensures |r| > 1 ==> r[0] != '0'
    decreases n
  {
    if n < 10 then [DigitChar(n)] else Decimal(n / 10) + [DigitChar(n % 10)]
  }

  /** The value of a decimal numeral. */
  function DecimalValue(s: string): nat
    requires IsDigits(s)
  {
    if s == [] then 0 else DecimalValue(s[..|s| - 1]) * 10 + (s[|s| - 1] as int - '0' as int)
  }

  /** `Decimal` is injective: reading a numeral back gives the number. */
  lemma {:induction false} DecimalRoundTrip(n: nat)
    ensures DecimalValue(Decimal(n)) == n
    decreases n
  {
    if n >= 10 {
      DecimalRoundTrip(n / 10);
      var s := Decimal(n);
      assert s[..|s| - 1] == Decimal(n / 10);
    }
  }

  // ---------------------------------------------------------------------
  // length

  /** `s.length`: the number of UTF-16 code units, two for a character beyond U+FFFF. */
  function Utf16Length(s: string): (n: nat)
    ensures |s| <= n <= 2 * |s|
    ensures (forall i :: 0 <= i < |s| ==> s[i] as int <= 0xFFFF) ==> n == |s|
  {
    if s == [] then 0 else (if s[0] as int > 0xFFFF then 2 else 1) + Utf16Length(s[1..])
  }

  // ---------------------------------------------------------------------
  // Ordering

  /** Code-point lexicographic order on strings: `a <= b`. */
  predicate LexLe(a: string, b: string) {
    a == [] || (b != [] && (a[0] < b[0] || (a[0] == b[0] && LexLe(a[1..], b[1..]))))
  }

  lemma {:induction false} LexLeTotal(a: string, b: string)
    ensures LexLe(a, b) || LexLe(b, a)
  {
    if a != [] && b != [] && a[0] == b[0] {
      LexLeTotal(a[1..], b[1..]);
    }
  }

  lemma {:induction false} LexLeTrans(a: string, b: string, c: string)
    requires LexLe(a, b) && LexLe(b, c)
    ensures LexLe(a, c)
  {
    if a != [] && a[0] == b[0] && b[0] == c[0] {
      LexLeTrans(a[1..], b[1..], c[1..]);
    }
  }

  lemma {:induction false} LexLeAntisym(a: string, b: string)
    requires LexLe(a, b) && LexLe(b, a)
    ensures a == b
  {
    if a != [] {
      LexLeAntisym(a[1..], b[1..]);
      assert a == [a[0]] + a[1..] && b == [b[0]] + b[1..];
    }
  }

  /** The empty string comes first, and only the empty string is at or below it. */
  lemma LexLeEmpty(a: string)
    ensures LexLe("", a)
    ensures LexLe(a, "") <==> a == ""
  {
  }
}
