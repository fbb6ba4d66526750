/** The string operations the jobs rely on: substring search, `trim()`,
    stripping every character outside `[a-zA-Z0-9]`, and the credential
    redaction `url.replace(/\/\/.*@/, "//REDACTED@")`. Strings are
    sequences of characters with ECMAScript's character classes. */
module Text {
  import opened Store

  predicate IsPrefix(p: string, s: string)
  {
    |p| <= |s| && s[..|p|] == p
  }

  /** `s.includes(sub)`, and a regular-expression alternative matching a
      literal. */
  predicate Contains(s: string, sub: string)
    decreases |s|
  {
    IsPrefix(sub, s) || (s != [] && Contains(s[1..], sub))
  }

  predicate OccursAt(s: string, sub: string, i: int)
  {
    0 <= i && i + |sub| <= |s| && s[i..i + |sub|] == sub
  }

  lemma {:induction false} OccursThenContains(s: string, sub: string, i: int)
    requires OccursAt(s, sub, i)
    ensures Contains(s, sub)
    decreases i
  {
    if i > 0 {
      assert s[1..][i - 1..i - 1 + |sub|] == s[i..i + |sub|];
      OccursThenContains(s[1..], sub, i - 1);
    }
  }

  lemma {:induction false} ContainsThenOccurs(s: string, sub: string) returns (i: int)
    requires Contains(s, sub)
    ensures OccursAt(s, sub, i)
    decreases |s|
  {
    if IsPrefix(sub, s) {
      i := 0;
    } else {
      var k := ContainsThenOccurs(s[1..], sub);
      assert s[1..][k..k + |sub|] == s[k + 1..k + 1 + |sub|];
      i := k + 1;
    }
  }

  /** The search agrees with the textbook definition: some position of `s`
      starts a copy of `sub`. */
  lemma ContainsIff(s: string, sub: string)
    ensures Contains(s, sub) <==> exists i :: OccursAt(s, sub, i)
  {
    if Contains(s, sub) {
      var i := ContainsThenOccurs(s, sub);
    }
    forall i | OccursAt(s, sub, i)
      ensures Contains(s, sub)
    {
      OccursThenContains(s, sub, i);
    }
  }

  /** A string contains every string it is built around. */
  lemma ContainsInfix(a: string, sub: string, b: string)
    ensures Contains(a + sub + b, sub)
  {
    var s := a + sub + b;
    assert s[|a|..|a| + |sub|] == sub;
    assert OccursAt(s, sub, |a|);
    ContainsIff(s, sub);
  }

  // ---------------------------------------------------------------------
  // Character classes

  /** ECMAScript LineTerminator: LF, CR, LINE SEPARATOR, PARAGRAPH SEPARATOR.
      These are the characters a regular-expression `.` does not match. */
  predicate IsLineTerminator(c: char)
  {
    c as int in {0x0A, 0x0D, 0x2028, 0x2029}
  }

  /** ECMAScript WhiteSpace and LineTerminator, the set `trim()` removes. */
  predicate IsSpace(c: char)
  {
    IsLineTerminator(c) ||
    c as int in {0x09, 0x0B, 0x0C, 0x20, 0xA0, 0x1680, 0x202F, 0x205F, 0x3000, 0xFEFF} ||
    (0x2000 <= c as int <= 0x200A)
  }

  /** The class `[a-zA-Z0-9]`. */
  predicate IsAlnum(c: char)
  {
    ('a' <= c <= 'z') || ('A' <= c <= 'Z') || ('0' <= c <= '9')
  }

  // ---------------------------------------------------------------------
  // trim()

  function TrimStart(s: string): (r: string)
    decreases |s|
  {
    if s != [] && IsSpace(s[0]) then TrimStart(s[1..]) else s
  }

  function TrimEnd(s: string): (r: string)
    decreases |s|
  {
    if s != [] && IsSpace(s[|s| - 1]) then TrimEnd(s[..|s| - 1]) else s
  }

  /** `TrimStart` drops a leading run of white space and nothing else. */
  lemma {:induction false} TrimStartSpec(s: string)
    ensures var r := TrimStart(s);
      |r| <= |s| && r == s[|s| - |r|..] && (forall i :: 0 <= i < |s| - |r| ==> IsSpace(s[i])) &&
      (r == [] || !IsSpace(r[0]))
    decreases |s|
  {
    if s != [] && IsSpace(s[0]) {
      TrimStartSpec(s[1..]);
      var r := TrimStart(s);
      forall i | 1 <= i < |s| - |r| ensures IsSpace(s[i]) {
        assert s[i] == s[1..][i - 1];
      }
      assert s[1..][|s| - 1 - |r|..] == s[|s| - |r|..];
    }
  }

  /** `TrimEnd` drops a trailing run of white space and nothing else. */
  lemma {:induction false} TrimEndSpec(s: string)
    ensures var r := TrimEnd(s);
      |r| <= |s| && r == s[..|r|] && (forall i :: |r| <= i < |s| ==> IsSpace(s[i])) &&
      (r == [] || !IsSpace(r[|r| - 1]))
    decreases |s|
  {
    if s != [] && IsSpace(s[|s| - 1]) {
      TrimEndSpec(s[..|s| - 1]);
      var r := TrimEnd(s);
      assert s[..|s| - 1][..|r|] == s[..|r|];
      forall i | |r| <= i < |s| - 1 ensures IsSpace(s[i]) {
        assert s[i] == s[..|s| - 1][i];
      }
    }
  }

  /** `String.prototype.trim`. */
  function Trim(s: string): string
  {
    TrimEnd(TrimStart(s))
  }

  predicate AllSpace(s: string)
  {
    forall i :: 0 <= i < |s| ==> IsSpace(s[i])
  }

  /** `trim()` removes exactly a run of white space at each end: the result
      neither starts nor ends with white space, and surrounding it with the
      removed runs gives back the input. */
  lemma TrimSpec(s: string)
    ensures var r := Trim(s);
      (r == [] || (!IsSpace(r[0]) && !IsSpace(r[|r| - 1]))) &&
      exists a, b :: AllSpace(a) && AllSpace(b) && s == a + r + b
  {
    var t := TrimStart(s);
    var r := TrimEnd(t);
    TrimStartSpec(s);
    TrimEndSpec(t);
    TrimPieces(s, t, r);
    if r != [] {
      assert r[0] == t[0];
    }
  }

  /** A suffix after leading white space, cut before trailing white space,
      is the middle of a space-run / text / space-run split. */
  lemma TrimPieces(s: string, t: string, r: string)
    requires |t| <= |s| && t == s[|s| - |t|..] && forall i :: 0 <= i < |s| - |t| ==> IsSpace(s[i])
    requires |r| <= |t| && r == t[..|r|] && forall i :: |r| <= i < |t| ==> IsSpace(t[i])
    ensures exists a, b :: AllSpace(a) && AllSpace(b) && s == a + r + b
  {
    var a := s[..|s| - |t|];
    var b := t[|r|..];
    assert AllSpace(a);
    assert AllSpace(b) by {
      forall i | 0 <= i < |b| ensures IsSpace(b[i]) {
        assert b[i] == t[|r| + i];
      }
    }
    assert t == r + b;
    assert s == a + t;
    assert s == a + r + b;
  }

  /** Trimming twice is trimming once. */
  lemma TrimIdempotent(s: string)
    ensures Trim(Trim(s)) == Trim(s)
  {
    var r := Trim(s);
    TrimSpec(s);
    assert TrimStart(r) == r;
    assert TrimEnd(r) == r;
  }

  // ---------------------------------------------------------------------
  // replace(/[^a-zA-Z0-9]/g, "")

  function StripNonAlnum(s: string): (r: string)
    ensures forall i :: 0 <= i < |r| ==> IsAlnum(r[i])
    decreases |s|
  {
    if s == [] then []
    else (if IsAlnum(s[0]) then [s[0]] else []) + StripNonAlnum(s[1..])
  }

  /** Every letter and digit survives, as often as it occurs. */
  lemma {:induction false} StripKeepsCounts(s: string)
    ensures forall c :: multiset(StripNonAlnum(s))[c] == if IsAlnum(c) then multiset(s)[c] else 0
    decreases |s|
  {
    if s != [] {
      StripKeepsCounts(s[1..]);
      assert s == [s[0]] + s[1..];
    }
  }

  /** The removal works piece by piece, so the kept characters stay in
      their original order. */
  lemma {:induction false} StripConcat(a: string, b: string)
    ensures StripNonAlnum(a + b) == StripNonAlnum(a) + StripNonAlnum(b)
    decreases |a|
  {
    if a == [] {
      assert a + b == b;
    } else {
      var head: string := if IsAlnum(a[0]) then [a[0]] else [];
      assert (a + b)[0] == a[0];
      assert (a + b)[1..] == a[1..] + b;
      StripConcat(a[1..], b);
      assert StripNonAlnum(a + b) == head + StripNonAlnum(a[1..] + b);
      assert StripNonAlnum(a) == head + StripNonAlnum(a[1..]);
    }
  }

  /** A string of letters and digits only is left as it is. */
  lemma {:induction false} StripKeepsAlnum(s: string)
    requires forall i :: 0 <= i < |s| ==> IsAlnum(s[i])
    ensures StripNonAlnum(s) == s
    decreases |s|
  {
    if s != [] {
      StripKeepsAlnum(s[1..]);
    }
  }

  lemma StripIdempotent(s: string)
    ensures StripNonAlnum(StripNonAlnum(s)) == StripNonAlnum(s)
  {
    StripKeepsAlnum(StripNonAlnum(s));
  }

  // ---------------------------------------------------------------------
  // url.replace(/\/\/.*@/, "//REDACTED@")

  /** `s[i..j+1]` is a match of `\/\/.*@`: two slashes, then characters
      other than line terminators, then `@` at position `j`. */
  predicate RegexMatch(s: string, i: int, j: int)
  {
    0 <= i && i + 2 <= j < |s| && s[i] == '/' && s[i + 1] == '/' && s[j] == '@' &&
    forall k :: i + 2 <= k < j ==> !IsLineTerminator(s[k])
  }

  /** The first line terminator at or after `p`, or the end of `s`. */
  function LineEnd(s: string, p: nat): (q: nat)
    requires p <= |s|
    ensures p <= q <= |s| && (q == |s| || IsLineTerminator(s[q]))
    ensures forall k :: p <= k < q ==> !IsLineTerminator(s[k])
    decreases |s| - p
  {
    if p == |s| || IsLineTerminator(s[p]) then p else LineEnd(s, p + 1)
  }

  lemma {:induction false} LineEndPast(s: string, p: nat, j: nat)
    requires p <= j < |s| && forall k :: p <= k <= j ==> !IsLineTerminator(s[k])
    ensures j < LineEnd(s, p)
    decreases j - p
  {
    if p < j {
      LineEndPast(s, p + 1, j);
    }
  }

  /** The last `@` in `s[lo..hi]`. */
  function LastAt(s: string, lo: nat, hi: nat): (r: Option<nat>)
    requires lo <= hi <= |s|
    ensures r.None? ==> forall k :: lo <= k < hi ==> s[k] != '@'
    ensures r.Some? ==> (lo <= r.value < hi && s[r.value] == '@' &&
                         forall k :: r.value < k < hi ==> s[k] != '@')
    decreases hi - lo
  {
    if lo == hi then None
    else if s[hi - 1] == '@' then Some(hi - 1)
    else LastAt(s, lo, hi - 1)
  }

  /** The greedy match starting at `i`, given by the position of its `@`. */
  function MatchAt(s: string, i: nat): (r: Option<nat>)
    ensures r.Some? ==> RegexMatch(s, i, r.value) && forall j :: RegexMatch(s, i, j) ==> j <= r.value
    ensures r.None? ==> forall j :: !RegexMatch(s, i, j)
  {
    if i + 2 <= |s| && s[i] == '/' && s[i + 1] == '/' then
      var e := LineEnd(s, i + 2);
      var r := LastAt(s, i + 2, e);
      assert forall j :: RegexMatch(s, i, j) ==> j < e by {
        forall j | RegexMatch(s, i, j) ensures j < e {
          LineEndPast(s, i + 2, j);
        }
      }
      r
    else None
  }

  datatype Span = Span(start: nat, end: nat)

  /** The leftmost position at or after `i` where a match starts. */
  function FirstMatch(s: string, i: nat): (r: Option<Span>)
    requires i <= |s|
    ensures r.Some? ==> (i <= r.value.start && RegexMatch(s, r.value.start, r.value.end) &&
                         (forall j :: RegexMatch(s, r.value.start, j) ==> j <= r.value.end) &&
                         (forall p, j :: i <= p < r.value.start ==> !RegexMatch(s, p, j)))
    ensures r.None? ==> forall p, j :: i <= p ==> !RegexMatch(s, p, j)
    decreases |s| - i
  {
    if i == |s| then None
    else match MatchAt(s, i)
      case Some(j) => Some(Span(i, j))
      case None => FirstMatch(s, i + 1)
  }

  /** `url.replace(/\/\/.*@/, "//REDACTED@")`: the leftmost match, extended
      as far to the right as its line allows, becomes `//REDACTED@`; a
      string with no match is unchanged. */
  function RedactUrl(s: string): (r: string)
    ensures (forall i, j :: !RegexMatch(s, i, j)) ==> r == s
    ensures forall i, j ::
              (RegexMatch(s, i, j) &&
               (forall p, q :: 0 <= p < i ==> !RegexMatch(s, p, q)) &&
               (forall q :: RegexMatch(s, i, q) ==> q <= j))
              ==> r == s[..i] + "//REDACTED@" + s[j + 1..]
  {
    match FirstMatch(s, 0)
    case None => s
    case Some(m) => s[..m.start] + "//REDACTED@" + s[m.end + 1..]
  }

  /** The credentials of a scheme-relative address such as `//u:p@h` are
      replaced by the marker. */
  lemma RedactBasicAuth()
    ensures RedactUrl("//u:p@h") == "//REDACTED@h"
  {
    var s := "//u:p@h";
    assert RegexMatch(s, 0, 5);
    assert forall q :: RegexMatch(s, 0, q) ==> q <= 5 by {
      assert s[6] != '@';
    }
    assert s[6..] == "h";
  }
}
