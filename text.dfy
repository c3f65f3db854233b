/**
 * An ASCII model of the Python `str` operations the pipeline uses:
 * `strip`, `startswith`, `endswith`, `in`, `split`, `join`, `replace`,
 * `isdigit`, `int`, `str`, `lower`, `title`, zero-padded formatting and
 * the `os.path` helpers `join`, `basename` and `splitext`.
 */
module PyText {
  import opened Wrappers
  import Seqs

  // ---------------------------------------------------------------------
  // Character classes

  /** `str.isspace()` restricted to ASCII: space, \t \n \v \f \r and \x1c-\x1f. */
  predicate IsSpace(c: char) {
    c == ' ' || c == '\t' || c == '\n' || c == '\U{B}' || c == '\U{C}' || c == '\r'
    || ('\U{1C}' <= c <= '\U{1F}')
  }

  predicate IsDigit(c: char) { '0' <= c <= '9' }

  predicate IsUpper(c: char) { 'A' <= c <= 'Z' }

  predicate IsLower(c: char) { 'a' <= c <= 'z' }

  predicate IsLetter(c: char) { IsUpper(c) || IsLower(c) }

  predicate AllSpace(s: string) { forall i :: 0 <= i < |s| ==> IsSpace(s[i]) }

  // ---------------------------------------------------------------------
  // strip

  /** `s.lstrip()` */
  function LStrip(s: string): (r: string)
    ensures |r| <= |s|
    ensures r != [] ==> !IsSpace(r[0])
  {
    if s != [] && IsSpace(s[0]) then LStrip(s[1..]) else s
  }

  /** `s.rstrip()` */
  function RStrip(s: string): (r: string)
    ensures |r| <= |s|
    ensures r != [] ==> !IsSpace(r[|r| - 1]) && r[0] == s[0]
  {
    if s != [] && IsSpace(s[|s| - 1]) then RStrip(s[..|s| - 1]) else s
  }

  /** `s.strip()`: the result has no whitespace at either end. */
  function Strip(s: string): (r: string)
    ensures r != [] ==> !IsSpace(r[0]) && !IsSpace(r[|r| - 1])
    ensures |r| <= |s|
  {
    RStrip(LStrip(s))
  }

  /** lstrip drops exactly a whitespace prefix. */
  lemma {:induction false} LStripSuffix(s: string)
    ensures |LStrip(s)| <= |s| && LStrip(s) == s[|s| - |LStrip(s)|..]
    ensures AllSpace(s[..|s| - |LStrip(s)|])
  {
    if s != [] && IsSpace(s[0]) {
      LStripSuffix(s[1..]);
      var n := |s| - |LStrip(s)|;
      assert s[..n] == [s[0]] + s[1..][..n - 1];
    }
  }

  /** rstrip drops exactly a whitespace suffix. */
  lemma {:induction false} RStripPrefix(s: string)
    ensures RStrip(s) == s[..|RStrip(s)|]
    ensures AllSpace(s[|RStrip(s)|..])
  {
    if s != [] && IsSpace(s[|s| - 1]) {
      var t := s[..|s| - 1];
      RStripPrefix(t);
      var n := |RStrip(s)|;
      assert s[n..] == t[n..] + [s[|s| - 1]];
    }
  }

  predicate Stripped(s: string) {
    s != [] ==> !IsSpace(s[0]) && !IsSpace(s[|s| - 1])
  }

  /** Stripping a string that has no outer whitespace leaves it unchanged. */
  lemma StripIdentity(s: string)
    requires Stripped(s)
    ensures Strip(s) == s
  {
  }

  /** Stripping is idempotent. */
  lemma StripIdempotent(s: string)
    ensures Strip(Strip(s)) == Strip(s)
  {
    StripIdentity(Strip(s));
  }

  /** Strip removes exactly an all-whitespace prefix and suffix. */
  lemma StripIsInfix(s: string)
    ensures exists i, j :: 0 <= i <= j <= |s| && Strip(s) == s[i..j]
                           && AllSpace(s[..i]) && AllSpace(s[j..])
  {
    var l := LStrip(s);
    LStripSuffix(s);
    var i := |s| - |l|;
    var r := RStrip(l);
    RStripPrefix(l);
    assert Strip(s) == s[i..i + |r|];
    assert s[i + |r|..] == l[|r|..];
  }

  // ---------------------------------------------------------------------
  // prefixes, suffixes, substrings

  predicate StartsWith(s: string, p: string) { |p| <= |s| && s[..|p|] == p }

  predicate EndsWith(s: string, p: string) { |p| <= |s| && s[|s| - |p|..] == p }

  /** `pat` occurs in `s` at index `k`. */
  predicate OccursAt(s: string, pat: string, k: nat) {
    k + |pat| <= |s| && s[k..k + |pat|] == pat
  }

  /** The index of the first occurrence of `pat` in `s` at or after `from`. */
  function FindFrom(s: string, pat: string, from: nat): (r: Option<nat>)
    ensures r.Some? ==> from <= r.value && OccursAt(s, pat, r.value)
    ensures r.Some? ==> forall k :: from <= k < r.value ==> !OccursAt(s, pat, k)
    ensures r.None? ==> forall k :: from <= k ==> !OccursAt(s, pat, k)
    decreases |s| - from
  {
    if from + |pat| > |s| then None
    else if OccursAt(s, pat, from) then Some(from)
    else FindFrom(s, pat, from + 1)
  }

  /** `s.find(pat)`: the index of the first occurrence of `pat`, if any. */
  function Find(s: string, pat: string): (r: Option<nat>)
    ensures r.Some? ==> OccursAt(s, pat, r.value)
    ensures r.Some? ==> forall k :: 0 <= k < r.value ==> !OccursAt(s, pat, k)
    ensures r.None? ==> forall k :: 0 <= k ==> !OccursAt(s, pat, k)
  {
    FindFrom(s, pat, 0)
  }

  /** Occurrences in a suffix are occurrences in the whole, shifted. */
  lemma OccursShift(s: string, pat: string, d: nat, k: nat)
    requires d <= |s|
    ensures OccursAt(s[d..], pat, k) <==> OccursAt(s, pat, k + d)
  {
    if k + |pat| <= |s[d..]| {
      assert s[d..][k..k + |pat|] == s[k + d..k + d + |pat|];
    }
  }

  /** `pat in s` */
  predicate Contains(s: string, pat: string) { Find(s, pat).Some? }

  /** `s.split(pat)[0]`: everything before the first occurrence of `pat`. */
  function Before(s: string, pat: string): (r: string)
    ensures StartsWith(s, r)
    ensures !Contains(s, pat) ==> r == s
  {
    match Find(s, pat)
    case None => s
    case Some(i) => s[..i]
  }

  /**
   * `s.split(pat)[1]`: the text between the first and the second
   * occurrence of `pat` (or the end); `None` where Python raises IndexError.
   */
  function SecondField(s: string, pat: string): (r: Option<string>)
    requires pat != []
    ensures r.None? <==> !Contains(s, pat)
  {
    match Find(s, pat)
    case None => None
    case Some(i) => Some(Before(s[i + |pat|..], pat))
  }

  /** An occurrence with none before it is the one `find` returns. */
  lemma FindIs(s: string, pat: string, i: nat)
    requires OccursAt(s, pat, i)
    requires forall k :: 0 <= k < i ==> !OccursAt(s, pat, k)
    ensures Find(s, pat) == Some(i)
  {
    var r := Find(s, pat);
    assert r.Some?;
    assert OccursAt(s, pat, r.value);
  }

  /** What precedes the first occurrence holds no occurrence. */
  lemma BeforeFree(s: string, pat: string)
    requires pat != []
    ensures !Contains(Before(s, pat), pat)
  {
    var b := Before(s, pat);
    forall k: nat ensures !OccursAt(b, pat, k) {
      if k + |pat| <= |b| {
        assert b == s[..|b|];
        assert b[k..k + |pat|] == s[k..k + |pat|];
        if Find(s, pat).Some? {
          assert |b| == Find(s, pat).value && k < |b|;
        }
        assert !OccursAt(s, pat, k);
      }
    }
  }

  /** The first occurrence in `s` stays the first once text is appended. */
  lemma FindExtend(s: string, t: string, pat: string)
    requires Find(s, pat).Some?
    ensures Find(s + t, pat) == Find(s, pat)
  {
    var i := Find(s, pat).value;
    assert OccursAt(s, pat, i);
    assert (s + t)[i..i + |pat|] == s[i..i + |pat|];
    forall k | 0 <= k < i ensures !OccursAt(s + t, pat, k) {
      assert !OccursAt(s, pat, k);
      assert (s + t)[k..k + |pat|] == s[k..k + |pat|];
    }
    FindIs(s + t, pat, i);
  }

  /** A text free of the first character of `pat`, then `pat`: found right after the text. */
  lemma FindAfterFree(x: string, t: string, pat: string)
    requires pat != [] && pat[0] !in x && StartsWith(t, pat)
    ensures Find(x + t, pat) == Some(|x|)
  {
    assert (x + t)[|x|..|x| + |pat|] == t[..|pat|];
    forall k | 0 <= k < |x| ensures !OccursAt(x + t, pat, k) {
      if k + |pat| <= |x + t| {
        assert (x + t)[k] == x[k];
        assert (x + t)[k..k + |pat|][0] == (x + t)[k];
      }
    }
    FindIs(x + t, pat, |x|);
  }

  /** Without an occurrence starting in `x`, the text before `pat` keeps all of `x`. */
  lemma BeforeKeeps(x: string, t: string, pat: string)
    requires forall k :: 0 <= k < |x| ==> !OccursAt(x + t, pat, k)
    ensures StartsWith(Before(x + t, pat), x)
  {
  }

  /** `s.replace(pat, rep)`: leftmost, non-overlapping, left to right. */
  function ReplaceAll(s: string, pat: string, rep: string): (r: string)
    requires pat != []
    decreases |s|
  {
    if |s| < |pat| then s
    else if OccursAt(s, pat, 0) then rep + ReplaceAll(s[|pat|..], pat, rep)
    else [s[0]] + ReplaceAll(s[1..], pat, rep)
  }

  /** Replacing in a string that has no occurrence changes nothing. */
  lemma {:induction false} ReplaceAbsent(s: string, pat: string, rep: string)
    requires pat != [] && !Contains(s, pat)
    ensures ReplaceAll(s, pat, rep) == s
    decreases |s|
  {
    if |s| >= |pat| {
      assert !OccursAt(s, pat, 0);
      forall k: nat ensures !OccursAt(s[1..], pat, k) {
        OccursShift(s, pat, 1, k);
      }
      ReplaceAbsent(s[1..], pat, rep);
      assert s == [s[0]] + s[1..];
    }
  }

  /** A leading run of characters that cannot start `pat` passes through replace. */
  lemma {:induction false} ReplaceSkipsPrefix(w: string, t: string, pat: string, rep: string)
    requires pat != [] && forall i :: 0 <= i < |w| ==> w[i] != pat[0]
    ensures ReplaceAll(w + t, pat, rep) == w + ReplaceAll(t, pat, rep)
    decreases |w|
  {
    if w == [] {
      assert w + t == t;
    } else {
      var s := w + t;
      assert s[1..] == w[1..] + t;
      ReplaceSkipsPrefix(w[1..], t, pat, rep);
      if |s| >= |pat| {
        assert s[0] == w[0];
        assert !OccursAt(s, pat, 0);
        calc {
          ReplaceAll(s, pat, rep);
          [w[0]] + ReplaceAll(w[1..] + t, pat, rep);
          [w[0]] + (w[1..] + ReplaceAll(t, pat, rep));
          { assert [w[0]] + w[1..] == w; }
          w + ReplaceAll(t, pat, rep);
        }
      } else {
        assert |t| < |pat|;
        assert ReplaceAll(w[1..] + t, pat, rep) == w[1..] + t;
        assert ReplaceAll(t, pat, rep) == t;
      }
    }
  }

  // ---------------------------------------------------------------------
  // split and join on one character

  /** `s.split(c)` for a one-character separator: never empty, no piece holds `c`. */
  function Split(s: string, c: char): (r: seq<string>)
    ensures |r| >= 1
    ensures forall k :: 0 <= k < |r| ==> c !in r[k]
  {
    if s == [] then [""]
    else
      var rest := Split(s[1..], c);
      if s[0] == c then [""] + rest else [[s[0]] + rest[0]] + rest[1..]
  }

  /** `sep.join(parts)` */
  function Join(parts: seq<string>, sep: string): string
  {
    if parts == [] then ""
    else if |parts| == 1 then parts[0]
    else parts[0] + sep + Join(parts[1..], sep)
  }

  /** Joining the pieces of a split with the same separator gives the text back. */
  lemma {:induction false} JoinSplit(s: string, c: char)
    ensures Join(Split(s, c), [c]) == s
  {
    if s != [] {
      var rest := Split(s[1..], c);
      JoinSplit(s[1..], c);
      if s[0] == c {
        assert Split(s, c) == [""] + rest;
        assert ([""] + rest)[1..] == rest;
      } else {
        var r := [[s[0]] + rest[0]] + rest[1..];
        if |rest| == 1 {
          assert Join(rest, [c]) == rest[0];
        } else {
          assert Join(rest, [c]) == rest[0] + [c] + Join(rest[1..], [c]);
          assert r[1..] == rest[1..];
        }
      }
    }
  }

  /** Splitting a join of separator-free pieces gives the pieces back. */
  lemma {:induction false} SplitJoin(parts: seq<string>, c: char)
    requires |parts| >= 1
    requires forall k :: 0 <= k < |parts| ==> c !in parts[k]
    ensures Split(Join(parts, [c]), c) == parts
    decreases |parts|, |parts[0]|
  {
    if |parts| == 1 {
      SplitFree(parts[0], c);
    } else if parts[0] == [] {
      SplitJoin(parts[1..], c);
      assert Join(parts, [c]) == [c] + Join(parts[1..], [c]);
      assert [""] + parts[1..] == parts;
    } else {
      var tail := [parts[0][1..]] + parts[1..];
      assert tail[1..] == parts[1..];
      SplitJoin(tail, c);
      var s := Join(parts, [c]);
      assert s == [parts[0][0]] + Join(tail, [c]);
      assert s[1..] == Join(tail, [c]);
      assert parts[0] == [parts[0][0]] + parts[0][1..];
      assert [[parts[0][0]] + tail[0]] + tail[1..] == parts;
    }
  }

  /** A text without the separator splits into itself. */
  lemma {:induction false} SplitFree(s: string, c: char)
    requires c !in s
    ensures Split(s, c) == [s]
  {
    if s != [] {
      SplitFree(s[1..], c);
      assert s == [s[0]] + s[1..];
    }
  }

  /** Splitting a concatenation around one separator. */
  lemma {:induction false} SplitAppend(a: string, b: string, c: char)
    ensures Split(a + [c] + b, c) == Split(a, c) + Split(b, c)
    decreases |a|
  {
    if a == [] {
      SplitCons(c, b, c);
      assert a + [c] + b == [c] + b;
    } else {
      SplitAppend(a[1..], b, c);
      SplitAppendStep(a, b, c);
    }
  }

  /** The inductive step of `SplitAppend`: one more character in front. */
  lemma SplitAppendStep(a: string, b: string, c: char)
    requires a != []
    requires Split(a[1..] + [c] + b, c) == Split(a[1..], c) + Split(b, c)
    ensures Split(a + [c] + b, c) == Split(a, c) + Split(b, c)
  {
    var x, t := a[0], a[1..] + [c] + b;
    var left, right := Split(a[1..], c), Split(b, c);
    assert a + [c] + b == [x] + t;
    assert a == [x] + a[1..];
    SplitCons(x, t, c);
    SplitCons(x, a[1..], c);
    if x == c {
      Seqs.Assoc([""], left, right);
    } else {
      Seqs.TailOfAppend(left, right);
      Seqs.Assoc([[x] + left[0]], left[1..], right);
    }
  }

  /** One step of `split`: the first character either ends the first piece or joins it. */
  lemma SplitCons(x: char, t: string, c: char)
    ensures Split([x] + t, c)
            == if x == c then [""] + Split(t, c) else [[x] + Split(t, c)[0]] + Split(t, c)[1..]
  {
    assert ([x] + t)[1..] == t;
  }

  // ---------------------------------------------------------------------
  // digits, int() and str()

  /** `s.isdigit()` restricted to ASCII digits. */
  predicate IsDigits(s: string) {
    |s| > 0 && forall i :: 0 <= i < |s| ==> IsDigit(s[i])
  }

  function DigitValue(c: char): nat
    requires IsDigit(c)
  {
    c as int - '0' as int
  }

  /** The value of a string of decimal digits. */
  function DigitsValue(s: string): nat
    requires forall i :: 0 <= i < |s| ==> IsDigit(s[i])
  {
    if s == [] then 0
    else DigitsValue(s[..|s| - 1]) * 10 + DigitValue(s[|s| - 1])
  }

  /** `str(n)` for a natural number. */
  function Decimal(n: nat): (r: string)
    ensures IsDigits(r)
    ensures |r| > 1 ==> r[0] != '0'
  {
    if n < 10 then [('0' as int + n) as char]
    else Decimal(n / 10) + [('0' as int + n % 10) as char]
  }

  /** Reading back a printed number gives the number. */
  lemma {:induction false} DecimalRoundTrip(n: nat)
    ensures DigitsValue(Decimal(n)) == n
  {
    if n >= 10 {
      var d := Decimal(n);
      assert d[..|d| - 1] == Decimal(n / 10);
      DecimalRoundTrip(n / 10);
    }
  }

  /** Leading zeros do not change a digit string's value. */
  lemma {:induction false} LeadingZero(s: string)
    requires forall i :: 0 <= i < |s| ==> IsDigit(s[i])
    ensures DigitsValue("0" + s) == DigitsValue(s)
  {
    if s != [] {
      var t := "0" + s;
      assert t[..|t| - 1] == "0" + s[..|s| - 1];
      LeadingZero(s[..|s| - 1]);
    }
  }

  /** Prepending `k` zeros keeps a digit string's value. */
  lemma {:induction false} LeadingZeros(k: nat, s: string)
    requires forall i :: 0 <= i < |s| ==> IsDigit(s[i])
    ensures DigitsValue(Repeat('0', k) + s) == DigitsValue(s)
  {
    if k == 0 {
      assert Repeat('0', k) + s == s;
    } else {
      LeadingZeros(k - 1, s);
      var t := Repeat('0', k - 1) + s;
      assert forall i :: 0 <= i < |t| ==> IsDigit(t[i]);
      assert Repeat('0', k) + s == "0" + t;
      LeadingZero(t);
    }
  }

  /** `c * k` for a one-character string `c`: `k` copies of `c`. */
  function Repeat(c: char, k: nat): (r: string)
    ensures |r| == k && forall i :: 0 <= i < k ==> r[i] == c
  {
    if k == 0 then "" else [c] + Repeat(c, k - 1)
  }

  /** `f"{n:0{width}d}"` for n >= 0: the decimal digits, left-padded with zeros. */
  function ZeroPad(n: nat, width: nat): (r: string)
    ensures IsDigits(r) && |r| >= width
    ensures DigitsValue(r) == n
  {
    var d := Decimal(n);
    var z := if |d| < width then width - |d| else 0;
    LeadingZeros(z, d);
    DecimalRoundTrip(n);
    Repeat('0', z) + d
  }

  /** `str(v)` for any integer. */
  function IntStr(v: int): string
  {
    if v < 0 then "-" + Decimal(-v) else Decimal(v)
  }

  /** Digits separated by single underscores, as `int()` accepts them. */
  predicate IsDigitGroups(s: string) {
    && |s| > 0 && IsDigit(s[0]) && IsDigit(s[|s| - 1])
    && (forall i :: 0 <= i < |s| ==> IsDigit(s[i]) || s[i] == '_')
    && (forall i :: 0 <= i < |s| - 1 ==> !(s[i] == '_' && s[i + 1] == '_'))
  }

  /** The string with every `_` removed. */
  function DropUnderscores(s: string): (r: string)
    ensures (forall i :: 0 <= i < |s| ==> IsDigit(s[i]) || s[i] == '_')
            ==> forall i :: 0 <= i < |r| ==> IsDigit(r[i])
  {
    if s == [] then ""
    else (if s[0] == '_' then "" else [s[0]]) + DropUnderscores(s[1..])
  }

  /** The sign-less body of a decimal literal, read by `int()`. */
  function ParseUnsigned(b: string): Option<nat>
  {
    if IsDigitGroups(b) then Some(DigitsValue(DropUnderscores(b))) else None
  }

  /**
   * `int(s)` on a `str`, in base 10: surrounding whitespace is ignored, an
   * optional sign, then digits with single `_` between them; `None` where
   * Python raises ValueError.
   */
  function ParseInt(s: string): Option<int>
  {
    var t := Strip(s);
    if t != [] && (t[0] == '-' || t[0] == '+') then
      match ParseUnsigned(t[1..])
      case None => None
      case Some(v) => Some(if t[0] == '-' then -(v as int) else v as int)
    else
      match ParseUnsigned(t)
      case None => None
      case Some(v) => Some(v)
  }

  lemma {:induction false} DropUnderscoresFree(s: string)
    requires forall i :: 0 <= i < |s| ==> IsDigit(s[i])
    ensures DropUnderscores(s) == s
  {
    if s != [] {
      DropUnderscoresFree(s[1..]);
      assert s == [s[0]] + s[1..];
    }
  }

  /** `int()` reads a printed natural number back. */
  lemma UnsignedRoundTrip(n: nat)
    ensures ParseUnsigned(Decimal(n)) == Some(n)
  {
    var d := Decimal(n);
    DecimalRoundTrip(n);
    DropUnderscoresFree(d);
    assert IsDigitGroups(d);
  }

  /** `int(str(v)) == v` for every integer. */
  lemma IntStrRoundTrip(v: int)
    ensures ParseInt(IntStr(v)) == Some(v)
  {
    var s := IntStr(v);
    if v < 0 {
      var d := Decimal(-v);
      UnsignedRoundTrip(-v);
      assert s == "-" + d;
      assert s[|s| - 1] == d[|d| - 1];
      StripIdentity(s);
      assert s[1..] == d;
    } else {
      var d := Decimal(v);
      UnsignedRoundTrip(v);
      assert s == d;
      StripIdentity(s);
      assert s[0] != '-' && s[0] != '+';
    }
  }

  // ---------------------------------------------------------------------
  // case

  function LowerChar(c: char): char {
    if IsUpper(c) then (c as int - 'A' as int + 'a' as int) as char else c
  }

  function UpperChar(c: char): char {
    if IsLower(c) then (c as int - 'a' as int + 'A' as int) as char else c
  }

  /** `s.lower()` */
  function Lower(s: string): (r: string)
    ensures |r| == |s| && forall i :: 0 <= i < |s| ==> r[i] == LowerChar(s[i])
  {
    if s == [] then "" else [LowerChar(s[0])] + Lower(s[1..])
  }

  /**
   * `s.title()`: a letter that follows a letter is lower-cased, any other
   * letter upper-cased; other characters are kept.
   */
  function Title(s: string): (r: string)
    ensures |r| == |s|
    ensures forall i :: 0 <= i < |s| ==> !IsLetter(s[i]) ==> r[i] == s[i]
    ensures forall i :: 0 <= i < |s| ==>
      r[i] == (if i > 0 && IsLetter(s[i - 1]) then LowerChar(s[i]) else UpperChar(s[i]))
  {
    TitleAfter(s, false)
  }

  function TitleAfter(s: string, afterLetter: bool): (r: string)
    ensures |r| == |s|
    ensures forall i :: 0 <= i < |s| ==> !IsLetter(s[i]) ==> r[i] == s[i]
    ensures forall i :: 0 <= i < |s| ==>
      r[i] == (if (if i == 0 then afterLetter else IsLetter(s[i - 1])) then LowerChar(s[i]) else UpperChar(s[i]))
  {
    if s == [] then ""
    else
      var rest := TitleAfter(s[1..], IsLetter(s[0]));
      assert forall i :: 1 <= i < |s| ==> s[1..][i - 1] == s[i];
      [if afterLetter then LowerChar(s[0]) else UpperChar(s[0])] + rest
  }

  // ---------------------------------------------------------------------
  // os.path

  /** `os.path.join(a, b)` on POSIX. */
  function PathJoin(a: string, b: string): (r: string)
    ensures EndsWith(r, b)
  {
    if StartsWith(b, "/") then b
    else if a == [] || EndsWith(a, "/") then a + b
    else a + "/" + b
  }

  /** `os.path.basename(p)`: everything after the last `/`. */
  function Basename(p: string): (r: string)
    ensures '/' !in r
    ensures EndsWith(p, r)
  {
    if p == [] then ""
    else if p[|p| - 1] == '/' then ""
    else
      var r := Basename(p[..|p| - 1]) + [p[|p| - 1]];
      assert p == p[..|p| - 1] + [p[|p| - 1]];
      r
  }

  /** The index of the last `.` in `s`, if any. */
  function LastDot(s: string): (r: Option<nat>)
    ensures r.Some? ==> r.value < |s| && s[r.value] == '.'
    ensures r.Some? ==> forall k :: r.value < k < |s| ==> s[k] != '.'
    ensures r.None? ==> '.' !in s
  {
    if s == [] then None
    else if s[|s| - 1] == '.' then Some(|s| - 1)
    else LastDot(s[..|s| - 1])
  }

  /**
   * `os.path.splitext(name)[0]`: the name without its extension; a dot that
   * only has dots before it (a hidden file) does not start an extension.
   */
  function DropExtension(name: string): (r: string)
    ensures StartsWith(name, r)
  {
    match LastDot(name)
    case None => name
    case Some(i) =>
      if exists k :: 0 <= k < i && name[k] != '.' then name[..i] else name
  }
}
