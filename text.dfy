/** The JavaScript string semantics the order form relies on: `trim`,
    `startsWith`, `includes`, `split`, the `\s` and `\d` regular-expression
    classes, `parseInt` (no radix), `String(n)` for integers and the
    "is a number" test behind `isNaN`. Strings are sequences of Unicode
    scalar values. */
module Text {
  import opened Seqs

  // ---------------------------------------------------------------- whitespace

  /** The characters matched by `\s` and removed by `String.prototype.trim`
      (ECMAScript WhiteSpace and LineTerminator). */
  predicate IsSpace(c: char) {
    || c == ' ' || c == '\t' || c == '\n' || c == '\r'
    || c == '\U{000B}' || c == '\U{000C}' || c == '\U{00A0}' || c == '\U{1680}'
    || ('\U{2000}' <= c <= '\U{200A}')
    || c == '\U{2028}' || c == '\U{2029}' || c == '\U{202F}' || c == '\U{205F}'
    || c == '\U{3000}' || c == '\U{FEFF}'
  }

  predicate NoSpace(s: string) {
    forall k :: 0 <= k < |s| ==> !IsSpace(s[k])
  }

  predicate AllSpace(s: string) {
    forall k :: 0 <= k < |s| ==> IsSpace(s[k])
  }

  /** `trimStart`: the suffix of `s` left after its leading white space. */
  function TrimStart(s: string): (r: string)
    ensures |r| <= |s|
  {
    if |s| > 0 && IsSpace(s[0]) then TrimStart(s[1..]) else s
  }

  /** `trimEnd`: the prefix of `s` left after its trailing white space. */
  function TrimEnd(s: string): (r: string)
    ensures |r| <= |s|
  {
    if |s| > 0 && IsSpace(s[|s| - 1]) then TrimEnd(s[..|s| - 1]) else s
  }

  /** `String.prototype.trim`. */
  function Trim(s: string): string {
    TrimEnd(TrimStart(s))
  }

  /** What `trimStart` removes: a leading run of white space, up to the
      first character that is not white space. */
  lemma {:induction false} TrimStartShape(s: string)
    ensures var r := TrimStart(s);
      && r == s[|s| - |r|..]
      && AllSpace(s[..|s| - |r|])
      && (r == [] || !IsSpace(r[0]))
    decreases |s|
  {
    if |s| > 0 && IsSpace(s[0]) {
      TrimStartShape(s[1..]);
      var r := TrimStart(s[1..]);
      assert TrimStart(s) == r;
      assert s[1..][|s| - 1 - |r|..] == s[|s| - |r|..];
      var front, tailFront := s[..|s| - |r|], s[1..][..|s| - 1 - |r|];
      assert forall k :: 0 <= k < |tailFront| ==> front[k + 1] == tailFront[k];
    }
  }

  /** What `trimEnd` removes: a trailing run of white space, back to the
      last character that is not white space. */
  lemma {:induction false} TrimEndShape(s: string)
    ensures var r := TrimEnd(s);
      && r == s[..|r|]
      && AllSpace(s[|r|..])
      && (r == [] || !IsSpace(r[|r| - 1]))
    decreases |s|
  {
    if |s| > 0 && IsSpace(s[|s| - 1]) {
      var p := s[..|s| - 1];
      TrimEndShape(p);
      var r := TrimEnd(p);
      assert p[..|r|] == s[..|r|];
      assert forall k :: |r| <= k < |s| - 1 ==> s[k] == p[k];
    }
  }

  /** `!s.trim()`: nothing but white space. */
  predicate IsBlank(s: string) {
    AllSpace(s)
  }

  lemma {:induction false} TrimStartEmptyIff(s: string)
    ensures TrimStart(s) == [] <==> AllSpace(s)
    decreases |s|
  {
    if |s| > 0 && IsSpace(s[0]) {
      TrimStartEmptyIff(s[1..]);
      assert AllSpace(s) <==> AllSpace(s[1..]) by {
        assert forall k :: 1 <= k < |s| ==> s[k] == s[1..][k - 1];
      }
    }
  }

  lemma {:induction false} TrimEndEmptyIff(s: string)
    ensures TrimEnd(s) == [] <==> AllSpace(s)
    decreases |s|
  {
    if |s| > 0 && IsSpace(s[|s| - 1]) {
      var p := s[..|s| - 1];
      TrimEndEmptyIff(p);
      assert AllSpace(s) <==> AllSpace(p) by {
        assert forall k :: 0 <= k < |s| - 1 ==> s[k] == p[k];
      }
    }
  }

  /** A string is blank exactly when trimming it leaves the empty string. */
  lemma BlankIffTrimEmpty(s: string)
    ensures IsBlank(s) <==> Trim(s) == ""
  {
    var t := TrimStart(s);
    TrimStartEmptyIff(s);
    TrimEndEmptyIff(t);
    TrimStartShape(s);
    assert AllSpace(t) <==> t == [];
  }

  /** Trimming a string without white space leaves it as it is. */
  lemma TrimNoSpace(s: string)
    requires NoSpace(s)
    ensures Trim(s) == s
  {
    if s != [] {
      assert !IsSpace(s[0]) && !IsSpace(s[|s| - 1]);
    }
  }

  // ---------------------------------------------------------------- searching

  /** `s.startsWith(p)`. */
  predicate StartsWith(s: string, p: string) {
    |p| <= |s| && s[..|p|] == p
  }

  /** `s.includes(t)`. */
  predicate Contains(s: string, t: string)
    decreases |s|
  {
    StartsWith(s, t) || (|s| > 0 && Contains(s[1..], t))
  }

  /** `/^\d+$/.test(s)`: one or more ASCII decimal digits and nothing else. */
  predicate IsDigits(s: string) {
    |s| > 0 && forall k :: 0 <= k < |s| ==> '0' <= s[k] <= '9'
  }

  // ---------------------------------------------------------------- splitting

  /** True when no character of `piece` is one of `seps`. */
  predicate FreeOf(piece: string, seps: set<char>) {
    forall k :: 0 <= k < |piece| ==> piece[k] !in seps
  }

  /** `s.split(/[seps]/)`: the pieces between separator characters. Like
      JavaScript, the empty string splits into one empty piece. */
  function Split(s: string, seps: set<char>): (r: seq<string>)
    ensures |r| >= 1
    ensures forall k :: 0 <= k < |r| ==> FreeOf(r[k], seps)
    decreases |s|
  {
    if s == [] then [""]
    else
      var rest := Split(s[1..], seps);
      if s[0] in seps then [""] + rest
      else
        assert FreeOf(rest[0], seps);
        [[s[0]] + rest[0]] + rest[1..]
  }

  /** A string without a separator is its own single piece. */
  lemma {:induction false} SplitFree(s: string, seps: set<char>)
    requires FreeOf(s, seps)
    ensures Split(s, seps) == [s]
    decreases |s|
  {
    if s != [] {
      assert FreeOf(s[1..], seps) by {
        assert forall k :: 0 <= k < |s[1..]| ==> s[1..][k] == s[k + 1];
      }
      SplitFree(s[1..], seps);
      assert s == [s[0]] + s[1..];
    }
  }

  /** Every separator cuts: the pieces of `a`, a separator and `b` are the
      pieces of `a` followed by those of `b`. With `SplitFree` this fixes
      every piece, in order. */
  lemma {:induction false} SplitAtSeparator(a: string, c: char, b: string, seps: set<char>)
    requires c in seps
    ensures Split(a + [c] + b, seps) == Split(a, seps) + Split(b, seps)
    decreases |a|
  {
    if a == [] {
      EmptyAppend(a, [c]);
      TailOfAppend([c], b);
    } else {
      var x, t := a[0], a[1..];
      SplitAtSeparator(t, c, b, seps);
      TailOfAppend(a, [c]);
      TailOfAppend(a + [c], b);
      var rest, back := Split(t, seps), Split(b, seps);
      if x in seps {
        AppendAssoc([""], rest, back);
      } else {
        TailOfAppend(rest, back);
        AppendAssoc([[x] + rest[0]], rest[1..], back);
      }
    }
  }

  /** `pieces.join(sep)`. */
  function Join(pieces: seq<string>, sep: char): string {
    if |pieces| <= 1 then (if pieces == [] then "" else pieces[0])
    else pieces[0] + [sep] + Join(pieces[1..], sep)
  }

  /** Joining pieces that avoid some characters, with a separator that is
      not one of them, gives a string that avoids them too. */
  lemma {:induction false} JoinFree(pieces: seq<string>, sep: char, seps: set<char>)
    requires sep !in seps
    requires forall k :: 0 <= k < |pieces| ==> FreeOf(pieces[k], seps)
    ensures FreeOf(Join(pieces, sep), seps)
    decreases |pieces|
  {
    if |pieces| > 1 {
      var tail := pieces[1..];
      assert forall k :: 0 <= k < |tail| ==> tail[k] == pieces[k + 1];
      JoinFree(tail, sep, seps);
      var rest := Join(tail, sep);
      var j := pieces[0] + [sep] + rest;
      forall k | 0 <= k < |j| ensures j[k] !in seps {
        if k > |pieces[0]| {
          assert j[k] == rest[k - |pieces[0]| - 1];
        }
      }
    }
  }

  /** Splitting on one separator loses nothing: joining the pieces back
      with that separator gives the original string. */
  lemma {:induction false} SplitJoin(s: string, sep: char)
    ensures Join(Split(s, {sep}), sep) == s
    decreases |s|
  {
    if s != [] {
      SplitJoin(s[1..], sep);
      var rest := Split(s[1..], {sep});
      if s[0] == sep {
        assert Split(s, {sep}) == [""] + rest;
        assert s == [sep] + s[1..];
      } else {
        var r := Split(s, {sep});
        assert r == [[s[0]] + rest[0]] + rest[1..];
        if |rest| == 1 {
          assert s == [s[0]] + s[1..];
        } else {
          assert rest == [rest[0]] + rest[1..];
          assert Join(rest, sep) == rest[0] + [sep] + Join(rest[1..], sep);
          assert r[1..] == rest[1..];
          assert s == [s[0]] + s[1..];
        }
      }
    }
  }

  /** `pieces.filter(p => p.trim())`. */
  function NonBlank(pieces: seq<string>): (r: seq<string>)
    ensures |r| <= |pieces|
    ensures forall k :: 0 <= k < |r| ==> !IsBlank(r[k])
    ensures forall p :: p in r <==> p in pieces && !IsBlank(p)
    ensures |pieces| == 1 ==> r == if IsBlank(pieces[0]) then [] else pieces
  {
    if pieces == [] then []
    else if IsBlank(pieces[0]) then NonBlank(pieces[1..])
    else [pieces[0]] + NonBlank(pieces[1..])
  }

  /** The filter works piece by piece: it keeps the non-blank pieces of
      each part, in order, with their repeats. */
  lemma {:induction false} NonBlankAppend(a: seq<string>, b: seq<string>)
    ensures NonBlank(a + b) == NonBlank(a) + NonBlank(b)
  {
    if a == [] {
      EmptyAppend(a, b);
      EmptyAppend(NonBlank(a), NonBlank(b));
    } else {
      NonBlankAppend(a[1..], b);
      TailOfAppend(a, b);
      AppendAssoc([a[0]], NonBlank(a[1..]), NonBlank(b));
    }
  }

  // ---------------------------------------------------------------- integers

  function DigitChar(d: nat): char
    requires d < 10
  {
    "0123456789"[d]
  }

  /** `String(n)` for a non-negative integer: its decimal digits. */
  function NatToString(n: nat): (r: string)
    ensures IsDigits(r)
    ensures r[0] == '0' ==> n == 0 && |r| == 1
    decreases n
  {
    if n < 10 then [DigitChar(n)] else NatToString(n / 10) + [DigitChar(n % 10)]
  }

  /** `String(n)` for an integer. */
  function IntToString(n: int): string {
    if n < 0 then "-" + NatToString(-n) else NatToString(n)
  }

  /** A digit of the given radix (10, or 16 after a `0x` prefix). */
  predicate IsRadixDigit(c: char, radix: nat) {
    ('0' <= c <= '9') || (radix == 16 && (('a' <= c <= 'f') || ('A' <= c <= 'F')))
  }

  function RadixDigitValue(c: char): nat {
    if '0' <= c <= '9' then c as nat - '0' as nat
    else if 'a' <= c <= 'f' then c as nat - 'a' as nat + 10
    else if 'A' <= c <= 'F' then c as nat - 'A' as nat + 10
    else 0
  }

  /** The longest prefix of `s` made of digits of `radix`. */
  function DigitPrefix(s: string, radix: nat): (r: string)
    ensures |r| <= |s| && r == s[..|r|]
    ensures forall k :: 0 <= k < |r| ==> IsRadixDigit(r[k], radix)
    ensures |r| < |s| ==> !IsRadixDigit(s[|r|], radix)
  {
    if |s| > 0 && IsRadixDigit(s[0], radix) then [s[0]] + DigitPrefix(s[1..], radix) else []
  }

  /** The value of a digit string, most significant digit first. */
  function DigitsValue(d: string, radix: nat): nat {
    if d == [] then 0 else DigitsValue(d[..|d| - 1], radix) * radix + RadixDigitValue(d[|d| - 1])
  }

  /** The digits after an optional sign: a `0x`/`0X` prefix switches to
      hexadecimal, and the longest run of digits of that radix is read. */
  function ParseUnsigned(u: string): Option<nat> {
    var hex := |u| >= 2 && u[0] == '0' && (u[1] == 'x' || u[1] == 'X');
    var radix := if hex then 16 else 10;
    var d := DigitPrefix(if hex then u[2..] else u, radix);
    if d == [] then None else Some(DigitsValue(d, radix))
  }

  /** `parseInt` after the leading white space: one optional sign, then
      `ParseUnsigned`. */
  function ParseSigned(t: string): Option<int> {
    var signed := |t| > 0 && (t[0] == '-' || t[0] == '+');
    match ParseUnsigned(if signed then t[1..] else t)
    case None => None
    case Some(v) =>
      var w: int := v;
      Some(if signed && t[0] == '-' then -w else w)
  }

  /** `parseInt(s)` without a radix: leading white space is skipped, then
      `ParseSigned`; no digits gives `NaN` (`None`). */
  function ParseInt(s: string): Option<int> {
    ParseSigned(TrimStart(s))
  }

  /** `parseInt(s) || 0`: the quantity a text field stands for. */
  function ParseIntOrZero(s: string): int {
    match ParseInt(s)
    case Some(n) => n
    case None => 0
  }

  lemma {:induction false} DigitPrefixOfDigits(s: string)
    requires forall k :: 0 <= k < |s| ==> '0' <= s[k] <= '9'
    ensures DigitPrefix(s, 10) == s
    decreases |s|
  {
    if |s| > 0 {
      DigitPrefixOfDigits(s[1..]);
      assert s == [s[0]] + s[1..];
    }
  }

  lemma {:induction false} NatToStringValue(n: nat)
    ensures DigitsValue(NatToString(n), 10) == n
    decreases n
  {
    if n >= 10 {
      NatToStringValue(n / 10);
      var r := NatToString(n);
      assert r[..|r| - 1] == NatToString(n / 10);
      assert r[|r| - 1] == DigitChar(n % 10);
    }
  }

  lemma ParseUnsignedOfNatToString(m: nat)
    ensures ParseUnsigned(NatToString(m)) == Some(m)
  {
    var d := NatToString(m);
    assert !(|d| >= 2 && d[0] == '0');
    DigitPrefixOfDigits(d);
    NatToStringValue(m);
  }

  lemma TrimStartKeeps(s: string)
    requires |s| > 0 && (s[0] == '-' || '0' <= s[0] <= '9')
    ensures TrimStart(s) == s
  {
  }

  lemma {:induction false} ParseSignedMinus(d: string, m: nat)
    requires ParseUnsigned(d) == Some(m)
    ensures ParseSigned("-" + d) == Some(-(m as int))
  {
    assert ("-" + d)[1..] == d;
  }

  lemma {:induction false} ParseSignedDigits(d: string, m: nat)
    requires |d| > 0 && '0' <= d[0] <= '9'
    requires ParseUnsigned(d) == Some(m)
    ensures ParseSigned(d) == Some(m)
  {
  }

  /** `parseInt(String(n)) === n` for every integer. */
  lemma {:induction false} ParseIntOfIntToString(n: int)
    ensures ParseInt(IntToString(n)) == Some(n)
  {
    if n < 0 {
      var d := NatToString(-n);
      ParseUnsignedOfNatToString(-n);
      ParseSignedMinus(d, -n);
      TrimStartKeeps("-" + d);
    } else {
      var d := NatToString(n);
      ParseUnsignedOfNatToString(n);
      ParseSignedDigits(d, n);
      TrimStartKeeps(d);
    }
  }

  // ---------------------------------------------------------------- numbers

  predicate AllDecimal(s: string) {
    forall k :: 0 <= k < |s| ==> '0' <= s[k] <= '9'
  }

  /** Index of the first character of `s` that is in `cs`, or `|s|`. */
  function FirstOf(s: string, cs: set<char>): (k: nat)
    ensures k <= |s|
    ensures k < |s| ==> s[k] in cs
    ensures forall j :: 0 <= j < k ==> s[j] !in cs
  {
    if s == [] then 0 else if s[0] in cs then 0 else 1 + FirstOf(s[1..], cs)
  }

  /** `digits [. digits]` or `. digits`, with at least one digit. */
  predicate IsMantissa(m: string) {
    var k := FirstOf(m, {'.'});
    var whole := m[..k];
    var fraction := if k < |m| then m[k + 1..] else "";
    AllDecimal(whole) && AllDecimal(fraction) && (|whole| > 0 || |fraction| > 0)
  }

  /** `[+-] digits` after an `e` or `E`. */
  predicate IsExponent(x: string) {
    var digits := if |x| > 0 && (x[0] == '+' || x[0] == '-') then x[1..] else x;
    |digits| > 0 && AllDecimal(digits)
  }

  predicate IsUnsignedDecimal(s: string) {
    s == "Infinity" ||
    (var k := FirstOf(s, {'e', 'E'});
     IsMantissa(s[..k]) && (k == |s| || IsExponent(s[k + 1..])))
  }

  /** `0x…`, `0o…` or `0b…` with at least one digit of that base. */
  predicate IsNonDecimal(s: string) {
    |s| > 2 && s[0] == '0' &&
    ((s[1] in {'x', 'X'} && forall k :: 2 <= k < |s| ==> IsRadixDigit(s[k], 16)) ||
     (s[1] in {'o', 'O'} && forall k :: 2 <= k < |s| ==> '0' <= s[k] <= '7') ||
     (s[1] in {'b', 'B'} && forall k :: 2 <= k < |s| ==> s[k] == '0' || s[k] == '1'))
  }

  /** The strings `Number(s)` does not turn into `NaN`: after trimming, the
      empty string, a non-decimal literal, or a decimal literal with an
      optional sign. */
  predicate IsNumericString(s: string) {
    var t := Trim(s);
    t == "" || IsNonDecimal(t) || IsUnsignedDecimal(t) ||
    (|t| > 0 && (t[0] == '+' || t[0] == '-') && IsUnsignedDecimal(t[1..]))
  }

  lemma DigitsAreUnsignedDecimal(d: string)
    requires IsDigits(d)
    ensures IsUnsignedDecimal(d)
  {
    var e := FirstOf(d, {'e', 'E'});
    var p := FirstOf(d, {'.'});
    assert d[..|d|] == d;
  }

  /** Every decimal rendering of an integer is numeric. */
  lemma IntToStringIsNumeric(n: int)
    ensures IsNumericString(IntToString(n))
  {
    var m: nat := if n < 0 then -n else n;
    var d := NatToString(m);
    var s := IntToString(n);
    DigitsAreUnsignedDecimal(d);
    assert NoSpace(s) by {
      forall k | 0 <= k < |s| ensures !IsSpace(s[k]) {
        if n < 0 && k > 0 { assert s[k] == d[k - 1]; }
      }
    }
    TrimNoSpace(s);
    if n < 0 {
      assert s[1..] == d;
    }
  }
}
