/**
 * The behaviour of the java.lang and java.io library calls the wrapper relies
 * on: Integer.parseInt, String.split(" "), and the name and directory parts
 * of a java.io.File path.
 */
module JavaLang {
  import opened Results

  /** Bounds of Java's 32-bit int. */
  const MinInt: int := -0x8000_0000
  const MaxInt: int := 0x7fff_ffff

  predicate IsDigit(c: char) {
    '0' <= c <= '9'
  }

  predicate IsAsciiLetter(c: char) {
    'A' <= c <= 'Z' || 'a' <= c <= 'z'
  }

  predicate AllDigits(s: string) {
    forall i :: 0 <= i < |s| ==> IsDigit(s[i])
  }

  function DigitValue(c: char): nat
    requires IsDigit(c)
  {
    c as int - '0' as int
  }

  /** The value of a string of decimal digits, most significant first. */
  function DigitsValue(s: string): nat
    requires AllDigits(s)
  {
    if s == [] then 0 else 10 * DigitsValue(s[..|s| - 1]) + DigitValue(s[|s| - 1])
  }

  /**
   * Integer.parseInt(s): an optional '-' or '+' followed by one or more
   * decimal digits whose value fits in 32 bits. None stands for the
   * NumberFormatException Java throws on anything else, an empty string and
   * an overflowing value included.
   */
  function ParseInt(s: string): Option<int> {
    if |s| == 0 then None
    else
      var digits := if s[0] == '-' || s[0] == '+' then s[1..] else s;
      if |digits| == 0 || !AllDigits(digits) then None
      else
        var v: int := if s[0] == '-' then -(DigitsValue(digits) as int) else DigitsValue(digits);
        if MinInt <= v <= MaxInt then Some(v) else None
  }

  /** A parsable integer starts with a digit or a sign, and lies in the 32-bit range. */
  lemma ParseIntShape(s: string)
    requires ParseInt(s).Some?
    ensures |s| > 0 && (IsDigit(s[0]) || s[0] == '-' || s[0] == '+')
    ensures MinInt <= ParseInt(s).value <= MaxInt
  {
  }

  /** A string that starts with a letter never parses as an integer. */
  lemma LetterLedIsNotInt(s: string)
    requires |s| > 0 && IsAsciiLetter(s[0])
    ensures ParseInt(s) == None
  {
    if ParseInt(s).Some? {
      ParseIntShape(s);
    }
  }

  function DigitChar(d: nat): (c: char)
    requires d < 10
    ensures IsDigit(c) && DigitValue(c) == d
  {
    ('0' as int + d) as char
  }

  /** Integer.toString(n) for n >= 0: decimal digits without leading zeros. */
  function Decimal(n: nat): (d: string)
    ensures |d| > 0 && AllDigits(d)
  {
    if n < 10 then [DigitChar(n)] else Decimal(n / 10) + [DigitChar(n % 10)]
  }

  lemma {:induction false} DecimalValue(n: nat)
    ensures DigitsValue(Decimal(n)) == n
  {
    if n >= 10 {
      DecimalValue(n / 10);
      var d := Decimal(n);
      assert d[..|d| - 1] == Decimal(n / 10);
    }
  }

  /** Integer.parseInt reads back what Integer.toString writes, for every non-negative int. */
  lemma ParseDecimal(n: nat)
    requires n <= MaxInt
    ensures ParseInt(Decimal(n)) == Some(n)
  {
    DecimalValue(n);
    var d := Decimal(n);
    assert IsDigit(d[0]);
  }

  /** s.indexOf(c): the first position of c in s. */
  function IndexOf(s: string, c: char): (r: Option<nat>)
    ensures r.None? ==> c !in s
    ensures r.Some? ==> r.value < |s| && s[r.value] == c && c !in s[..r.value]
  {
    if |s| == 0 then None
    else if s[0] == c then Some(0)
    else match IndexOf(s[1..], c)
      case None => None
      case Some(k) => Some(k + 1)
  }

  /** s.lastIndexOf(c): the last position of c in s. */
  function LastIndexOf(s: string, c: char): (r: Option<nat>)
    ensures r.None? ==> c !in s
    ensures r.Some? ==> r.value < |s| && s[r.value] == c && c !in s[r.value + 1..]
  {
    if |s| == 0 then None
    else if s[|s| - 1] == c then Some(|s| - 1)
    else LastIndexOf(s[..|s| - 1], c)
  }

  lemma {:induction false} IndexOfAfter(a: string, c: char, rest: string)
    requires c !in a
    ensures IndexOf(a + [c] + rest, c) == Some(|a|)
  {
    if |a| > 0 {
      assert (a + [c] + rest)[1..] == a[1..] + [c] + rest;
      IndexOfAfter(a[1..], c, rest);
    }
  }

  lemma {:induction false} LastIndexOfAppend(d: string, s: string, c: char)
    requires c !in s
    ensures LastIndexOf(d + s, c) == LastIndexOf(d, c)
  {
    if |s| > 0 {
      assert (d + s)[..|d + s| - 1] == d + s[..|s| - 1];
      LastIndexOfAppend(d, s[..|s| - 1], c);
    } else {
      assert d + s == d;
    }
  }

  // ---------------------------------------------------------------------
  // String.split(" ")
  // ---------------------------------------------------------------------

  /** Every piece of s between single spaces, empty pieces included. */
  function Pieces(s: string): (r: seq<string>)
    ensures |r| > 0
    ensures forall k :: 0 <= k < |r| ==> ' ' !in r[k]
    decreases |s|
  {
    match LastIndexOf(s, ' ')
    case None => [s]
    case Some(i) => Pieces(s[..i]) + [s[i + 1..]]
  }

  function DropTrailingEmpty(ps: seq<string>): (r: seq<string>)
    ensures |r| <= |ps| && r == ps[..|r|]
    ensures forall k :: |r| <= k < |ps| ==> ps[k] == ""
    ensures |r| > 0 ==> r[|r| - 1] != ""
  {
    if |ps| > 0 && ps[|ps| - 1] == "" then DropTrailingEmpty(ps[..|ps| - 1]) else ps
  }

  /**
   * s.split(" "): a string without a space is its own single piece (even
   * the empty string); otherwise the pieces between single spaces, leading
   * and interior empty pieces kept, trailing empty pieces dropped.
   */
  function Split(s: string): seq<string> {
    if ' ' !in s then [s] else DropTrailingEmpty(Pieces(s))
  }

  /** String.join(" ", ps). */
  function Join(ps: seq<string>): string {
    if |ps| == 0 then ""
    else if |ps| == 1 then ps[0]
    else Join(ps[..|ps| - 1]) + " " + ps[|ps| - 1]
  }

  /** s without its trailing spaces. */
  function TrimTrailingSpaces(s: string): string {
    if |s| > 0 && s[|s| - 1] == ' ' then TrimTrailingSpaces(s[..|s| - 1]) else s
  }

  lemma {:induction false} JoinPieces(s: string)
    ensures Join(Pieces(s)) == s
    decreases |s|
  {
    match LastIndexOf(s, ' ')
    case None =>
    case Some(i) =>
      JoinPieces(s[..i]);
      assert s == s[..i] + " " + s[i + 1..];
  }

  lemma JoinEndsWithLast(ps: seq<string>)
    requires |ps| > 0 && ps[|ps| - 1] != ""
    ensures |Join(ps)| > 0 && Join(ps)[|Join(ps)| - 1] == ps[|ps| - 1][|ps[|ps| - 1]| - 1]
  {
  }

  lemma {:induction false} JoinDropTrailingEmpty(ps: seq<string>)
    requires forall k :: 0 <= k < |ps| ==> ' ' !in ps[k]
    ensures Join(DropTrailingEmpty(ps)) == TrimTrailingSpaces(Join(ps))
  {
    if |ps| > 0 && ps[|ps| - 1] == "" {
      var init := ps[..|ps| - 1];
      JoinDropTrailingEmpty(init);
      if |ps| == 1 {
        assert Join(ps) == "";
      } else {
        assert Join(ps) == Join(init) + " ";
        assert (Join(init) + " ")[..|Join(init) + " "| - 1] == Join(init);
      }
    } else if |ps| > 0 {
      var last := ps[|ps| - 1];
      JoinEndsWithLast(ps);
      assert last[|last| - 1] in last;
    }
  }

  /** Joining the pieces of s.split(" ") with single spaces gives back s up to trailing spaces. */
  lemma SplitJoin(s: string)
    ensures Join(Split(s)) == TrimTrailingSpaces(s)
  {
    if ' ' !in s {
      if |s| > 0 {
        assert s[|s| - 1] in s;
      }
    } else {
      JoinPieces(s);
      JoinDropTrailingEmpty(Pieces(s));
    }
  }

  /** No piece of s.split(" ") contains a space. */
  lemma SplitHasNoSpaces(s: string)
    ensures forall k :: 0 <= k < |Split(s)| ==> ' ' !in Split(s)[k]
  {
    if ' ' in s {
      var ps := Pieces(s);
      var r := DropTrailingEmpty(ps);
      forall k | 0 <= k < |r| ensures ' ' !in r[k] {
        assert r[k] == ps[k];
      }
    }
  }

  lemma {:induction false} TrimEmptyIffSpaces(s: string)
    ensures TrimTrailingSpaces(s) == "" <==> forall k :: 0 <= k < |s| ==> s[k] == ' '
  {
    if |s| > 0 && s[|s| - 1] == ' ' {
      TrimEmptyIffSpaces(s[..|s| - 1]);
      assert forall k :: 0 <= k < |s| - 1 ==> s[..|s| - 1][k] == s[k];
    }
  }

  /** s.split(" ") is empty exactly when s is one or more spaces and nothing else. */
  lemma SplitEmptyIffAllSpaces(s: string)
    ensures |Split(s)| == 0 <==> (|s| > 0 && forall k :: 0 <= k < |s| ==> s[k] == ' ')
  {
    SplitJoin(s);
    TrimEmptyIffSpaces(s);
    var r := Split(s);
    if |r| > 0 && ' ' in s {
      JoinEndsWithLast(r);
    }
  }

  // ---------------------------------------------------------------------
  // java.io.File paths, with '/' as the separator
  // ---------------------------------------------------------------------

  /** File.getName(): the part of the path after its last separator. */
  function BaseName(p: string): (b: string)
    ensures '/' !in b
  {
    match LastIndexOf(p, '/')
    case None => p
    case Some(i) => p[i + 1..]
  }

  /** The directory part of a path, up to and including its last separator ("" when it has none). */
  function DirPrefix(p: string): string {
    match LastIndexOf(p, '/')
    case None => ""
    case Some(i) => p[..i + 1]
  }

  /** A file name resolved against the directory of p names that file in p's directory. */
  lemma DirPrefixThenBaseName(p: string)
    ensures DirPrefix(p) + BaseName(p) == p
  {
  }

  /** Appending a name without a separator keeps the directory and extends the file name. */
  lemma AppendName(d: string, s: string)
    requires '/' !in s
    ensures DirPrefix(d + s) == DirPrefix(d)
    ensures BaseName(d + s) == BaseName(d) + s
  {
    LastIndexOfAppend(d, s, '/');
    match LastIndexOf(d, '/')
    case None =>
      assert LastIndexOf(d + s, '/') == None;
      assert DirPrefix(d + s) == "" == DirPrefix(d);
      assert BaseName(d + s) == d + s && BaseName(d) == d;
    case Some(i) =>
      assert LastIndexOf(d + s, '/') == Some(i);
      PrefixOfAppend(d, s, i + 1);
      SuffixOfAppend(d, s, i + 1);
  }

  lemma PrefixOfAppend(d: string, s: string, n: nat)
    requires n <= |d|
    ensures (d + s)[..n] == d[..n]
  {
  }

  lemma SuffixOfAppend(d: string, s: string, n: nat)
    requires n <= |d|
    ensures (d + s)[n..] == d[n..] + s
  {
  }

  // ---------------------------------------------------------------------
  // java.io.BufferedReader
  // ---------------------------------------------------------------------

  /** The lines successive readLine() calls return from text whose lines end in '\n'. */
  function ReadLines(text: string): seq<string>
    decreases |text|
  {
    if text == [] then []
    else match IndexOf(text, '\n')
      case None => [text]
      case Some(k) => [text[..k]] + ReadLines(text[k + 1..])
  }
}
