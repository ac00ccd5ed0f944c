/** The e-mail field check of the profile step: the field may hold several
    addresses separated by `,` or `;`; each non-empty trimmed piece must
    match `^[^\s@]+@[^\s@]+\.[^\s@]+$`, and at least one piece must exist. */
module Email {
  import opened Text

  /** No white space and no `@`: the class `[^\s@]`. */
  predicate PlainChars(s: string) {
    forall k :: 0 <= k < |s| ==> !IsSpace(s[k]) && s[k] != '@'
  }

  /** The regular expression read literally: a non-empty plain run, `@`, a
      non-empty plain run, `.`, a non-empty plain run, covering the whole
      string (the `.` may be any dot after the `@` that leaves both sides
      non-empty). */
  predicate MatchesEmailPattern(e: string) {
    exists i, j :: 0 < i && i + 1 < j && j + 1 < |e| && e[i] == '@' && e[j] == '.' &&
      PlainChars(e[..i]) && PlainChars(e[i + 1..j]) && PlainChars(e[j + 1..])
  }

  /** The same test decided in one pass: the first `@` is neither the first
      nor the last character, there is no white space and no second `@`,
      and some `.` lies strictly inside the part after the `@`. */
  predicate IsEmailAddress(e: string) {
    var at := FirstOf(e, {'@'});
    && 0 < at < |e|
    && NoSpace(e)
    && FreeOf(e[at + 1..], {'@'})
    && exists j :: at + 1 < j < |e| - 1 && e[j] == '.'
  }

  lemma FirstOfIs(e: string, i: nat)
    requires i < |e| && e[i] == '@' && PlainChars(e[..i])
    ensures FirstOf(e, {'@'}) == i
  {
  }

  /** A character of `e` at `k` with `lo <= k < hi` lies in `e[lo..hi]`. */
  lemma PlainAt(e: string, lo: nat, hi: nat, k: nat)
    requires lo <= k < hi <= |e| && PlainChars(e[lo..hi])
    ensures !IsSpace(e[k]) && e[k] != '@'
  {
    assert e[lo..hi][k - lo] == e[k];
  }

  /** Every string the regular expression matches passes the one-pass test. */
  lemma PatternImpliesAddress(e: string)
    requires MatchesEmailPattern(e)
    ensures IsEmailAddress(e)
  {
    var i, j :| 0 < i && i + 1 < j && j + 1 < |e| && e[i] == '@' && e[j] == '.' &&
      PlainChars(e[..i]) && PlainChars(e[i + 1..j]) && PlainChars(e[j + 1..]);
    SplitPointsGiveAddress(e, i, j);
  }

  lemma SplitPointsGiveAddress(e: string, i: nat, j: nat)
    requires 0 < i && i + 1 < j && j + 1 < |e| && e[i] == '@' && e[j] == '.'
    requires PlainChars(e[..i]) && PlainChars(e[i + 1..j]) && PlainChars(e[j + 1..])
    ensures IsEmailAddress(e)
  {
    FirstOfIs(e, i);
    assert e[..i] == e[0..i];
    assert e[j + 1..] == e[j + 1..|e|];
    forall k | 0 <= k < |e| ensures !IsSpace(e[k]) && (k > i ==> e[k] != '@') {
      if k < i {
        PlainAt(e, 0, i, k);
      } else if i < k < j {
        PlainAt(e, i + 1, j, k);
      } else if k > j {
        PlainAt(e, j + 1, |e|, k);
      }
    }
    var tail := e[i + 1..];
    assert forall k :: 0 <= k < |tail| ==> tail[k] == e[i + 1 + k];
  }

  /** Every string that passes the one-pass test matches the regular
      expression. */
  lemma AddressImpliesPattern(e: string)
    requires IsEmailAddress(e)
    ensures MatchesEmailPattern(e)
  {
    var i := FirstOf(e, {'@'});
    var j :| i + 1 < j < |e| - 1 && e[j] == '.';
    var tail := e[i + 1..];
    assert forall k :: i < k < |e| ==> e[k] == tail[k - i - 1];
    assert PlainChars(e[..i]);
    assert PlainChars(e[i + 1..j]);
    assert PlainChars(e[j + 1..]);
  }

  /** The one-pass test accepts exactly the strings the regular expression
      matches. */
  lemma EmailPatternIff(e: string)
    ensures MatchesEmailPattern(e) <==> IsEmailAddress(e)
  {
    if MatchesEmailPattern(e) {
      PatternImpliesAddress(e);
    }
    if IsEmailAddress(e) {
      AddressImpliesPattern(e);
    }
  }

  /** `pieces.map(e => e.trim()).filter(e => e)`. */
  function TrimmedPieces(pieces: seq<string>): (r: seq<string>)
    ensures forall k :: 0 <= k < |r| ==> r[k] != ""
  {
    if pieces == [] then []
    else
      var t := Trim(pieces[0]);
      (if t == "" then [] else [t]) + TrimmedPieces(pieces[1..])
  }

  /** The addresses of the field: its `,`/`;`-separated pieces, trimmed,
      empty ones dropped. */
  function Addresses(s: string): seq<string> {
    TrimmedPieces(Split(s, {',', ';'}))
  }

  /** `validateEmail`: a blank field is refused; otherwise there must be at
      least one address and every address must match the pattern. */
  predicate ValidateEmail(s: string) {
    var emails := Addresses(s);
    !IsBlank(s) && |emails| > 0 && forall k :: 0 <= k < |emails| ==> IsEmailAddress(emails[k])
  }

  lemma {:induction false} TrimmedPiecesMembers(pieces: seq<string>)
    ensures forall x :: x in TrimmedPieces(pieces) <==> x != "" && exists k :: 0 <= k < |pieces| && Trim(pieces[k]) == x
  {
    if pieces != [] {
      TrimmedPiecesMembers(pieces[1..]);
      assert forall k :: 1 <= k < |pieces| ==> pieces[k] == pieces[1..][k - 1];
    }
  }

  /** A blank string splits into blank pieces only. */
  lemma {:induction false} SplitOfBlank(s: string, seps: set<char>)
    requires IsBlank(s)
    ensures forall k :: 0 <= k < |Split(s, seps)| ==> IsBlank(Split(s, seps)[k])
    decreases |s|
  {
    if s != [] {
      assert IsBlank(s[1..]) by {
        forall k | 0 <= k < |s[1..]| ensures IsSpace(s[1..][k]) {
          assert s[1..][k] == s[k + 1];
        }
      }
      SplitOfBlank(s[1..], seps);
      var rest := Split(s[1..], seps);
      if s[0] !in seps {
        var r := Split(s, seps);
        assert r[0] == [s[0]] + rest[0];
        assert IsBlank(r[0]) by {
          forall k | 0 <= k < |r[0]| ensures IsSpace(r[0][k]) {
            if k > 0 {
              assert r[0][k] == rest[0][k - 1];
            }
          }
        }
        assert forall k :: 1 <= k < |r| ==> r[k] == rest[k];
      }
    }
  }

  /** What the field check accepts, stated over the raw pieces: at least one
      piece is not blank, and every piece that is not blank matches the
      pattern once trimmed. The leading blank-field test adds nothing to
      this. */
  lemma ValidateEmailMeaning(s: string)
    ensures var pieces := Split(s, {',', ';'});
      ValidateEmail(s) <==>
        && (exists k :: 0 <= k < |pieces| && !IsBlank(pieces[k]))
        && (forall k :: 0 <= k < |pieces| && !IsBlank(pieces[k]) ==> MatchesEmailPattern(Trim(pieces[k])))
  {
    var pieces := Split(s, {',', ';'});
    var emails := Addresses(s);
    TrimmedPiecesMembers(pieces);
    forall k | 0 <= k < |pieces| ensures IsBlank(pieces[k]) <==> Trim(pieces[k]) == "" {
      BlankIffTrimEmpty(pieces[k]);
    }
    forall k | 0 <= k < |pieces| && !IsBlank(pieces[k])
      ensures Trim(pieces[k]) in emails
      ensures MatchesEmailPattern(Trim(pieces[k])) <==> IsEmailAddress(Trim(pieces[k]))
    {
      EmailPatternIff(Trim(pieces[k]));
    }
    if IsBlank(s) {
      SplitOfBlank(s, {',', ';'});
    }
    if |emails| > 0 {
      assert emails[0] in emails;
    }
    if (forall k :: 0 <= k < |pieces| && !IsBlank(pieces[k]) ==> MatchesEmailPattern(Trim(pieces[k]))) {
      forall m | 0 <= m < |emails| ensures IsEmailAddress(emails[m]) {
        assert emails[m] in emails;
        var k :| 0 <= k < |pieces| && Trim(pieces[k]) == emails[m];
      }
    }
  }
}
