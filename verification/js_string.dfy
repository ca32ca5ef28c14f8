/** The parts of JavaScript's string semantics that the bridge relies on:
    the whitespace class, `trim`, ASCII case mapping, `includes`,
    `startsWith`, `join`, whitespace splitting, `Number.parseInt(s, 10)` and
    `String(n)` for integers. */
module JsString {
  import opened Wrappers

  /** ECMAScript WhiteSpace and LineTerminator code points: the set skipped by
      `String.prototype.trim`, matched by the regular-expression class `\s`
      and skipped by `Number.parseInt`. */
  predicate IsSpace(c: char) {
    || c == '\t' || c == '\n' || c == '\U{B}' || c == '\U{C}' || c == '\r'
    || c == ' ' || c == '\U{A0}' || c == '\U{1680}'
    || ('\U{2000}' <= c <= '\U{200A}')
    || c == '\U{2028}' || c == '\U{2029}' || c == '\U{202F}' || c == '\U{205F}'
    || c == '\U{3000}' || c == '\U{FEFF}'
  }

  /** The line terminators, which the regular-expression `.` does not match. */
  predicate IsLineTerminator(c: char) {
    c == '\n' || c == '\r' || c == '\U{2028}' || c == '\U{2029}'
  }

  /** The regular-expression class `\d`. */
  predicate IsDigit(c: char) {
    '0' <= c <= '9'
  }

  predicate NoSpace(s: string) {
    forall i :: 0 <= i < |s| ==> !IsSpace(s[i])
  }

  predicate AllDigits(s: string) {
    forall i :: 0 <= i < |s| ==> IsDigit(s[i])
  }

  function UpperChar(c: char): char {
    if 'a' <= c <= 'z' then (c as int - 32) as char else c
  }

  function LowerChar(c: char): char {
    if 'A' <= c <= 'Z' then (c as int + 32) as char else c
  }

  /** `toUpperCase`, on the ASCII letters. */
  function Upper(s: string): (r: string)
    ensures |r| == |s| && forall i :: 0 <= i < |s| ==> r[i] == UpperChar(s[i])
  {
    seq(|s|, i requires 0 <= i < |s| => UpperChar(s[i]))
  }

  /** `toLowerCase`, on the ASCII letters. */
  function Lower(s: string): (r: string)
    ensures |r| == |s| && forall i :: 0 <= i < |s| ==> r[i] == LowerChar(s[i])
  {
    seq(|s|, i requires 0 <= i < |s| => LowerChar(s[i]))
  }

  function TrimStart(s: string): (r: string)
    ensures |r| <= |s| && r == s[|s| - |r|..]
    ensures r == [] || !IsSpace(r[0])
    ensures forall i :: 0 <= i < |s| - |r| ==> IsSpace(s[i])
  {
    if s != [] && IsSpace(s[0]) then TrimStart(s[1..]) else s
  }

  function TrimEnd(s: string): (r: string)
    ensures |r| <= |s| && r == s[..|r|]
    ensures r == [] || !IsSpace(r[|r| - 1])
    ensures forall i :: |r| <= i < |s| ==> IsSpace(s[i])
  {
    if s != [] && IsSpace(s[|s| - 1]) then TrimEnd(s[..|s| - 1]) else s
  }

  /** `r` sits in `s` at index `i` with only whitespace around it. */
  ghost predicate SpaceAround(s: string, r: string, i: int) {
    && 0 <= i <= |s| - |r| && r == s[i..i + |r|]
    && (forall k :: 0 <= k < i ==> IsSpace(s[k]))
    && (forall k :: i + |r| <= k < |s| ==> IsSpace(s[k]))
  }

  /** `String.prototype.trim`. */
  function Trim(s: string): (r: string)
    ensures r == [] || (!IsSpace(r[0]) && !IsSpace(r[|r| - 1]))
  {
    TrimEnd(TrimStart(s))
  }

  /** What `trim` leaves is a slice of `s` with only whitespace before and
      after it, and it neither starts nor ends with whitespace. */
  lemma TrimSlice(s: string)
    ensures exists i :: SpaceAround(s, Trim(s), i)
  {
    var t := TrimStart(s);
    var r := TrimEnd(t);
    SpaceAroundOfTrims(s, t, r, |s| - |t|);
    assert SpaceAround(s, Trim(s), |s| - |t|);
  }

  /** Dropping leading whitespace, then trailing whitespace, leaves a slice
      with only whitespace around it. */
  lemma SpaceAroundOfTrims(s: string, t: string, r: string, i: int)
    requires 0 <= i <= |s| && t == s[i..] && |r| <= |t| && r == t[..|r|]
    requires forall k :: 0 <= k < i ==> IsSpace(s[k])
    requires forall k :: |r| <= k < |t| ==> IsSpace(t[k])
    ensures SpaceAround(s, r, i)
  {
    forall k | i + |r| <= k < |s| ensures IsSpace(s[k]) {
      assert s[k] == t[k - i];
    }
  }

  /** `.replace(/\/+$/, '')`. */
  function TrimTrailingSlashes(s: string): (r: string)
    ensures r <= s
    ensures r == [] || r[|r| - 1] != '/'
    ensures s == [] || s[|s| - 1] != '/' ==> r == s
  {
    if s != [] && s[|s| - 1] == '/' then TrimTrailingSlashes(s[..|s| - 1]) else s
  }

  /** `s.startsWith(p)`. */
  predicate IsPrefix(p: string, s: string) {
    |p| <= |s| && s[..|p|] == p
  }

  /** `s.includes(sub)`. */
  predicate Contains(s: string, sub: string)
    decreases |s|
  {
    IsPrefix(sub, s) || (s != [] && Contains(s[1..], sub))
  }

  /** `parts.join(sep)`. */
  function Join(parts: seq<string>, sep: string): string {
    if parts == [] then ""
    else if |parts| == 1 then parts[0]
    else parts[0] + sep + Join(parts[1..], sep)
  }

  /** Joining two non-empty lists puts one separator between their joins. */
  lemma {:induction false} JoinAppend(a: seq<string>, b: seq<string>, sep: string)
    requires a != [] && b != []
    ensures Join(a + b, sep) == Join(a, sep) + sep + Join(b, sep)
  {
    if |a| == 1 {
      assert (a + b)[1..] == b;
    } else {
      assert (a + b)[1..] == a[1..] + b;
      JoinAppend(a[1..], b, sep);
    }
  }

  /** The longest prefix of `s` without whitespace. */
  function Word(s: string): (w: string)
    ensures IsPrefix(w, s) && NoSpace(w)
    ensures |w| < |s| ==> IsSpace(s[|w|])
  {
    if s == [] || IsSpace(s[0]) then "" else [s[0]] + Word(s[1..])
  }

  /** `s.split(/\s+/).filter(Boolean)`: the maximal whitespace-free pieces. */
  function Words(s: string): (ws: seq<string>)
    ensures forall k :: 0 <= k < |ws| ==> ws[k] != "" && NoSpace(ws[k])
    decreases |s|
  {
    var t := TrimStart(s);
    if t == [] then [] else
      var w := Word(t);
      WordNonEmpty(t);
      ConsNonEmptyWords(w, Words(t[|w|..]));
      [w] + Words(t[|w|..])
  }

  /** A string that starts with a non-space character starts with a
      non-empty word. */
  lemma WordNonEmpty(t: string)
    requires t != [] && !IsSpace(t[0])
    ensures Word(t) != []
  {
  }

  lemma ConsNonEmptyWords(w: string, ws: seq<string>)
    requires w != "" && NoSpace(w)
    requires forall k :: 0 <= k < |ws| ==> ws[k] != "" && NoSpace(ws[k])
    ensures forall k :: 0 <= k < |[w] + ws| ==> ([w] + ws)[k] != "" && NoSpace(([w] + ws)[k])
  {
  }

  lemma {:induction false} WordOfJoined(w: string, rest: string)
    requires NoSpace(w)
    requires rest == [] || IsSpace(rest[0])
    ensures Word(w + rest) == w
    decreases |w|
  {
    if w != [] {
      assert (w + rest)[1..] == w[1..] + rest;
      WordOfJoined(w[1..], rest);
    } else if rest != [] {
      assert (w + rest) == rest;
    }
  }

  lemma WordsOfWordThenRest(w: string, rest: string)
    requires w != [] && NoSpace(w)
    requires rest == [] || IsSpace(rest[0])
    ensures Words(w + rest) == [w] + Words(rest)
  {
    var s := w + rest;
    assert s[0] == w[0];
    assert TrimStart(s) == s;
    WordOfJoined(w, rest);
    assert s[|w|..] == rest;
  }

  lemma WordsOfWord(w: string)
    requires w != [] && NoSpace(w)
    ensures Words(w) == [w]
  {
    WordsOfWordThenRest(w, "");
    assert w + "" == w;
    assert Words("") == [];
  }

  lemma WordsSkipSpace(s: string)
    ensures Words(" " + s) == Words(s)
  {
    assert (" " + s)[1..] == s;
    assert TrimStart(" " + s) == TrimStart(s);
  }

  /** Splitting the space-joined list of non-empty, whitespace-free pieces
      gives the pieces back: the scope list that the OAuth grant sends
      joined by spaces is the one the `_SCOPES` variable yields when split. */
  lemma {:induction false} WordsOfJoin(ws: seq<string>)
    requires forall k :: 0 <= k < |ws| ==> ws[k] != "" && NoSpace(ws[k])
    ensures Words(Join(ws, " ")) == ws
  {
    if |ws| == 1 {
      WordsOfWord(ws[0]);
    } else if |ws| > 1 {
      WordsOfJoin(ws[1..]);
      WordsOfJoinStep(ws);
    }
  }

  lemma WordsOfJoinStep(ws: seq<string>)
    requires |ws| > 1 && ws[0] != "" && NoSpace(ws[0])
    requires Words(Join(ws[1..], " ")) == ws[1..]
    ensures Words(Join(ws, " ")) == ws
  {
    var tail := Join(ws[1..], " ");
    var rest := " " + tail;
    assert Join(ws, " ") == ws[0] + rest;
    WordsOfWordThenRest(ws[0], rest);
    WordsSkipSpace(tail);
  }

  function DigitValue(c: char): nat
    requires IsDigit(c)
  {
    c as int - '0' as int
  }

  /** The number a non-empty run of decimal digits denotes. */
  function DigitsValue(ds: string): nat
    requires AllDigits(ds)
  {
    if ds == [] then 0 else DigitsValue(ds[..|ds| - 1]) * 10 + DigitValue(ds[|ds| - 1])
  }

  function DigitPrefix(s: string): (ds: string)
    ensures IsPrefix(ds, s) && AllDigits(ds)
    ensures |ds| < |s| ==> !IsDigit(s[|ds|])
  {
    if s != [] && IsDigit(s[0]) then [s[0]] + DigitPrefix(s[1..]) else ""
  }

  /** `Number.parseInt(s, 10)`, with `None` for `NaN`: leading whitespace is
      skipped, one sign is accepted, and the longest run of digits that
      follows is read; anything after it is ignored. `-0` reads as 0. */
  function ParseInt(s: string): (r: Option<int>)
    ensures r.None? <==> DigitPrefix(SignStripped(TrimStart(s))) == ""
  {
    var t := TrimStart(s);
    var body := SignStripped(t);
    var ds := DigitPrefix(body);
    var v: int := if ds == "" then 0 else DigitsValue(ds);
    if ds == "" then None
    else if t[0] == '-' then Some(-v)
    else Some(v)
  }

  function SignStripped(t: string): string {
    if t != [] && (t[0] == '-' || t[0] == '+') then t[1..] else t
  }

  function DigitChar(d: nat): (c: char)
    requires d < 10
    ensures IsDigit(c) && DigitValue(c) == d
  {
    ('0' as int + d) as char
  }

  /** `String(n)` for a non-negative integer. */
  function NatToString(n: nat): (s: string)
    ensures s != [] && AllDigits(s)
  {
    if n < 10 then [DigitChar(n)] else NatToString(n / 10) + [DigitChar(n % 10)]
  }

  /** `String(n)` for an integer. */
  function IntToString(n: int): string {
    if n < 0 then "-" + NatToString(-n) else NatToString(n)
  }

  lemma {:induction false} NatToStringValue(n: nat)
    ensures DigitsValue(NatToString(n)) == n
  {
    var s := NatToString(n);
    if n >= 10 {
      assert s[..|s| - 1] == NatToString(n / 10);
      NatToStringValue(n / 10);
    }
  }

  lemma {:induction false} DigitPrefixOfDigits(ds: string)
    requires AllDigits(ds)
    ensures DigitPrefix(ds) == ds
  {
    if ds != [] {
      DigitPrefixOfDigits(ds[1..]);
    }
  }

  /** The digit run at the front of `s` is exactly `s[..i]` when those are
      digits and no digit follows them. */
  lemma {:induction false} DigitPrefixUpTo(s: string, i: nat)
    requires i <= |s| && AllDigits(s[..i])
    requires i == |s| || !IsDigit(s[i])
    ensures DigitPrefix(s) == s[..i]
  {
    if i > 0 {
      assert s[1..][..i - 1] == s[..i][1..];
      assert s[..i][0] == s[0];
      DigitPrefixUpTo(s[1..], i - 1);
      assert s[..i] == [s[0]] + s[1..i];
    }
  }

  /** Reading back the decimal string of a natural number gives the number:
      the cursor a listing page hands out is the offset the next call reads. */
  lemma NatToStringRoundTrip(n: nat)
    ensures ParseInt(NatToString(n)) == Some(n)
  {
    var s := NatToString(n);
    assert !IsSpace(s[0]);
    assert TrimStart(s) == s;
    assert SignStripped(s) == s;
    DigitPrefixOfDigits(s);
    NatToStringValue(n);
  }
}
