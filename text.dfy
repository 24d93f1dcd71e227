/** The string operations the importer relies on: splitting on one character,
    prefix tests, file stems and unsigned 64-bit decimal parsing. */
module Text {
  import opened Outcomes

  /** `str::split(sep)`: the pieces between occurrences of `sep`, in order,
      empty pieces included; an empty string gives one empty piece. */
  function Split(s: string, sep: char): (pieces: seq<string>)
    ensures |pieces| >= 1
    ensures forall i :: 0 <= i < |pieces| ==> sep !in pieces[i]
    decreases |s|
  {
    if s == [] then [[]]
    else
      var rest := Split(s[1..], sep);
      if s[0] == sep then [[]] + rest
      else [[s[0]] + rest[0]] + rest[1..]
  }

  /** Glues pieces back together with `sep` between consecutive pieces. */
  function Join(pieces: seq<string>, sep: char): string
    requires |pieces| >= 1
    decreases |pieces|
  {
    if |pieces| == 1 then pieces[0] else pieces[0] + [sep] + Join(pieces[1..], sep)
  }

  /** Splitting loses nothing: joining the pieces gives the string back. */
  lemma {:induction false} JoinSplit(s: string, sep: char)
    ensures Join(Split(s, sep), sep) == s
    decreases |s|
  {
    if s != [] {
      var rest := Split(s[1..], sep);
      JoinSplit(s[1..], sep);
      if s[0] == sep {
        assert Split(s, sep) == [[]] + rest;
        assert ([[]] + rest)[1..] == rest;
      } else if |rest| == 1 {
        assert Split(s, sep) == [[s[0]] + rest[0]];
      } else {
        var pieces := [[s[0]] + rest[0]] + rest[1..];
        assert Split(s, sep) == pieces;
        assert pieces[1..] == rest[1..];
        assert Join(rest, sep) == rest[0] + [sep] + Join(rest[1..], sep);
      }
    }
  }

  lemma {:induction false} SplitWithoutSeparator(s: string, sep: char)
    requires sep !in s
    ensures Split(s, sep) == [s]
    decreases |s|
  {
    if s != [] {
      SplitWithoutSeparator(s[1..], sep);
      assert [s[0]] + s[1..] == s;
    }
  }

  lemma {:induction false} SplitAfterPiece(a: string, b: string, sep: char)
    requires sep !in a
    ensures Split(a + [sep] + b, sep) == [a] + Split(b, sep)
    decreases |a|
  {
    var s := a + [sep] + b;
    if a == [] {
      assert s[1..] == b;
    } else {
      assert s[1..] == a[1..] + [sep] + b;
      SplitAfterPiece(a[1..], b, sep);
      assert [a[0]] + a[1..] == a;
    }
  }

  /** Splitting is the inverse of joining pieces that do not contain the separator. */
  lemma {:induction false} SplitJoin(pieces: seq<string>, sep: char)
    requires |pieces| >= 1
    requires forall i :: 0 <= i < |pieces| ==> sep !in pieces[i]
    ensures Split(Join(pieces, sep), sep) == pieces
    decreases |pieces|
  {
    if |pieces| == 1 {
      SplitWithoutSeparator(pieces[0], sep);
    } else {
      SplitJoin(pieces[1..], sep);
      SplitAfterPiece(pieces[0], Join(pieces[1..], sep), sep);
      assert [pieces[0]] + pieces[1..] == pieces;
    }
  }

  /** A character that is neither the separator nor in any piece is not in the joined string. */
  lemma {:induction false} JoinExcludes(pieces: seq<string>, sep: char, c: char)
    requires |pieces| >= 1 && c != sep
    requires forall i :: 0 <= i < |pieces| ==> c !in pieces[i]
    ensures c !in Join(pieces, sep)
    decreases |pieces|
  {
    if |pieces| > 1 {
      JoinExcludes(pieces[1..], sep, c);
    }
  }

  /** Appending to the last piece appends to the joined string. */
  lemma {:induction false} JoinExtended(pieces: seq<string>, sep: char, suffix: string)
    requires |pieces| >= 1
    ensures Join(pieces[..|pieces| - 1] + [pieces[|pieces| - 1] + suffix], sep) == Join(pieces, sep) + suffix
    decreases |pieces|
  {
    var extended := pieces[..|pieces| - 1] + [pieces[|pieces| - 1] + suffix];
    if |pieces| > 1 {
      var rest := pieces[1..];
      JoinExtended(rest, sep, suffix);
      assert extended[1..] == rest[..|rest| - 1] + [rest[|rest| - 1] + suffix];
    }
  }

  function Occurrences(s: string, c: char): nat
    decreases |s|
  {
    if s == [] then 0 else (if s[0] == c then 1 else 0) + Occurrences(s[1..], c)
  }

  /** A string with k separators splits into k + 1 pieces. */
  lemma {:induction false} SplitCount(s: string, sep: char)
    ensures |Split(s, sep)| == Occurrences(s, sep) + 1
    decreases |s|
  {
    if s != [] {
      SplitCount(s[1..], sep);
    }
  }

  /** `str::starts_with`. */
  predicate StartsWith(s: string, prefix: string) {
    |prefix| <= |s| && s[..|prefix|] == prefix
  }

  /** Position of the last occurrence of `c`, if any. */
  function LastIndexOf(s: string, c: char): (r: Option<nat>)
    ensures r.Some? ==> r.value < |s| && s[r.value] == c && c !in s[r.value + 1..]
    ensures r.None? ==> c !in s
    decreases |s|
  {
    if s == [] then None
    else if s[|s| - 1] == c then Some(|s| - 1)
    else
      var r := LastIndexOf(s[..|s| - 1], c);
      assert r.Some? ==> s[r.value + 1..] == s[..|s| - 1][r.value + 1..] + [s[|s| - 1]];
      assert s == s[..|s| - 1] + [s[|s| - 1]];
      r
  }

  /** `Path::file_stem` of a file name: the part before the last `.`, unless
      there is no `.` or the only `.` is the first character. (`file_stem`
      also keeps `..` whole; a directory listing never yields that name.) */
  function Stem(name: string): (stem: string)
    ensures stem <= name
    ensures stem == name <==> forall i :: 0 < i < |name| ==> name[i] != '.'
    ensures stem == name || (name[|stem|] == '.' && |stem| > 0 && '.' !in name[|stem| + 1..])
  {
    match LastIndexOf(name, '.')
    case None => name
    case Some(k) =>
      assert forall i :: k < i < |name| ==> name[i] == name[k + 1..][i - k - 1];
      if k == 0 then name else name[..k]
  }

  /** The stem of `<base>.<ext>` is `<base>` when neither part holds a `.`
      and `<base>` is not empty. */
  lemma StemOfExtension(base: string, ext: string)
    requires |base| > 0 && '.' !in base && '.' !in ext
    ensures Stem(base + ['.'] + ext) == base
  {
    var name := base + ['.'] + ext;
    assert name[|base|] == '.';
    assert forall i :: |base| < i < |name| ==> name[i] == ext[i - |base| - 1];
    assert name[..|base|] == base;
  }

  /** The sort key of the importer: the number of `_`-separated tokens of the stem. */
  function TokenCount(name: string): (n: nat)
    ensures n == Occurrences(Stem(name), '_') + 1
  {
    SplitCount(Stem(name), '_');
    |Split(Stem(name), '_')|
  }

  // ---------------------------------------------------------------------------
  // `u64::from_str`: an optional leading '+', then one or more ASCII digits,
  // with a value below 2^64.

  const U64Limit: nat := 0x1_0000_0000_0000_0000

  predicate IsDigit(c: char) {
    '0' <= c <= '9'
  }

  predicate AllDigits(s: string) {
    forall i :: 0 <= i < |s| ==> IsDigit(s[i])
  }

  function DigitValue(c: char): nat
    requires IsDigit(c)
  {
    (c as int - '0' as int) as nat
  }

  function DigitsValue(s: string): nat
    requires AllDigits(s)
    decreases |s|
  {
    if s == [] then 0 else 10 * DigitsValue(s[..|s| - 1]) + DigitValue(s[|s| - 1])
  }

  function ParseU64(s: string): (r: Option<nat>)
    ensures r.Some? ==> r.value < U64Limit
  {
    if s == [] then None
    else
      var digits := if s[0] == '+' then s[1..] else s;
      if digits == [] || !AllDigits(digits) then None
      else if DigitsValue(digits) < U64Limit then Some(DigitsValue(digits))
      else None
  }

  /** The decimal rendering of a number, used to state what the parser accepts. */
  function Decimal(n: nat): (s: string)
    ensures |s| >= 1 && AllDigits(s)
    decreases n
  {
    var d := ['0' + (n % 10) as char];
    if n < 10 then d else Decimal(n / 10) + d
  }

  lemma {:induction false} DecimalValue(n: nat)
    ensures DigitsValue(Decimal(n)) == n
    decreases n
  {
    var s := Decimal(n);
    assert s[..|s| - 1] == if n < 10 then [] else Decimal(n / 10);
    if n >= 10 {
      DecimalValue(n / 10);
    }
  }

  /** Every identifier a `u64` can hold is parsed back from its decimal form. */
  lemma ParseDecimal(n: nat)
    requires n < U64Limit
    ensures ParseU64(Decimal(n)) == Some(n)
  {
    DecimalValue(n);
  }

  /** What the parser refuses: the empty string, a lone '+', a first
      character that is neither '+' nor a digit (a minus sign among them),
      and any later character that is not a digit. */
  lemma ParseRejects(s: string)
    requires s == [] || s == "+" || (s[0] != '+' && !IsDigit(s[0])) || exists i :: 1 <= i < |s| && !IsDigit(s[i])
    ensures ParseU64(s) == None
  {
    if s != [] && s != "+" && (s[0] == '+' || IsDigit(s[0])) {
      var i :| 1 <= i < |s| && !IsDigit(s[i]);
      var digits := if s[0] == '+' then s[1..] else s;
      if s[0] == '+' {
        assert digits[i - 1] == s[i];
      } else {
        assert digits[i] == s[i];
      }
    }
  }
}
