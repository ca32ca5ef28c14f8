/** Resolution of a JSON pointer inside a JSON value, in the lenient form of
    src/openapi/jsonPointer.ts: reference tokens are unescaped as in
    section 4 of RFC 6901, but array indices are read with `parseInt`. */
module JsonPointer {
  import opened Wrappers
  import opened JsString
  import opened JsonValue
  import opened Errors
  import Records
  import opened SeqFacts

  /** `s.split("/")`: the pieces between separators, always at least one. */
  function Split(s: string): (parts: seq<string>)
    ensures |parts| >= 1
  {
    if s == [] then [""]
    else if s[0] == '/' then [""] + Split(s[1..])
    else
      var rest := Split(s[1..]);
      [[s[0]] + rest[0]] + rest[1..]
  }

  /** Joining the pieces back with "/" gives the split string. */
  lemma {:induction false} JoinSplit(s: string)
    ensures Join(Split(s), "/") == s
  {
    if s != [] {
      JoinSplit(s[1..]);
      JoinSplitStep(s);
    }
  }

  /** The step of `JoinSplit`: the first character is a separator or part
      of the first piece. */
  lemma JoinSplitStep(s: string)
    requires s != [] && Join(Split(s[1..]), "/") == s[1..]
    ensures Join(Split(s), "/") == s
  {
    var rest := Split(s[1..]);
    if s[0] == '/' {
      assert Split(s) == [""] + rest;
      JoinCons("", rest, "/");
      assert s == "/" + s[1..];
    } else {
      assert Split(s) == [[s[0]] + rest[0]] + rest[1..];
      JoinPrependChar(s[0], rest, "/");
      assert s == [s[0]] + s[1..];
    }
  }

  lemma JoinCons(x: string, rest: seq<string>, sep: string)
    requires rest != []
    ensures Join([x] + rest, sep) == x + sep + Join(rest, sep)
  {
    var l := [x] + rest;
    assert l[0] == x && l[1..] == rest;
  }

  /** A character put in front of the first piece comes first in the join. */
  lemma JoinPrependChar(c: char, rest: seq<string>, sep: string)
    requires rest != []
    ensures Join([[c] + rest[0]] + rest[1..], sep) == [c] + Join(rest, sep)
  {
    var l := [[c] + rest[0]] + rest[1..];
    if |rest| > 1 {
      assert l[0] == [c] + rest[0] && l[1..] == rest[1..];
      var tail := Join(rest[1..], sep);
      assert Join(l, sep) == ([c] + rest[0]) + sep + tail;
      assert Join(rest, sep) == rest[0] + sep + tail;
      assert ([c] + rest[0]) + sep + tail == [c] + (rest[0] + sep + tail);
    } else {
      assert l == [[c] + rest[0]];
    }
  }

  /** A string without "/" is a single piece. */
  lemma {:induction false} SplitNoSeparator(e: string)
    requires '/' !in e
    ensures Split(e) == [e]
  {
    if e != [] {
      assert '/' !in e[1..] by {
        forall k | 0 <= k < |e[1..]| ensures e[1..][k] != '/' {
          assert e[1..][k] == e[k + 1];
        }
      }
      SplitNoSeparator(e[1..]);
      assert e == [e[0]] + e[1..];
    }
  }

  /** A separator between two strings separates their pieces. */
  lemma {:induction false} SplitConcat(a: string, b: string)
    ensures Split(a + "/" + b) == Split(a) + Split(b)
  {
    if a == [] {
      assert a + "/" + b == "/" + b;
      assert ("/" + b)[1..] == b;
    } else {
      var s := a + "/" + b;
      assert s[0] == a[0];
      assert s[1..] == a[1..] + "/" + b;
      SplitConcat(a[1..], b);
      var pieces := Split(a[1..]);
      if a[0] == '/' {
        AppendAssoc([""], pieces, Split(b));
      } else {
        var r := pieces + Split(b);
        assert r[0] == pieces[0] && r[1..] == pieces[1..] + Split(b);
        AppendAssoc([[a[0]] + pieces[0]], pieces[1..], Split(b));
      }
    }
  }

  /** Splitting a join of separator-free strings gives them back. */
  lemma {:induction false} SplitJoin(es: seq<string>)
    requires es != []
    requires forall k :: 0 <= k < |es| ==> '/' !in es[k]
    ensures Split(Join(es, "/")) == es
  {
    SplitNoSeparator(es[0]);
    if |es| > 1 {
      var rest := es[1..];
      assert forall k :: 0 <= k < |rest| ==> rest[k] == es[k + 1];
      SplitJoin(rest);
      assert Join(es, "/") == es[0] + "/" + Join(rest, "/");
      SplitConcat(es[0], Join(rest, "/"));
      assert es == [es[0]] + rest;
    }
  }

  /** `s.replace(/pat/g, rep)` for a literal pattern: every match, scanning
      left to right without overlap, is replaced. */
  function ReplaceAll(s: string, pat: string, rep: string): string
    requires pat != []
    decreases |s|
  {
    if s == [] then []
    else if IsPrefix(pat, s) then rep + ReplaceAll(s[|pat|..], pat, rep)
    else [s[0]] + ReplaceAll(s[1..], pat, rep)
  }

  /** A reference token as the source decodes it: "~1" first, then "~0". */
  function Unescape(token: string): string {
    ReplaceAll(ReplaceAll(token, "~1", "/"), "~0", "~")
  }

  /** The encoding of section 3 of RFC 6901: "~" becomes "~0" and "/"
      becomes "~1". */
  function Escape(s: string): (e: string)
    ensures '/' !in e
  {
    if s == [] then []
    else (if s[0] == '~' then "~0" else if s[0] == '/' then "~1" else [s[0]]) + Escape(s[1..])
  }

  /** The encoding of "~" alone, the state between the two replacements. */
  function EscapeTilde(s: string): string {
    if s == [] then []
    else (if s[0] == '~' then "~0" else [s[0]]) + EscapeTilde(s[1..])
  }

  /** A match at the front is replaced and the scan resumes after it. */
  lemma ReplaceMatch(pat: string, rep: string, x: string)
    requires pat != []
    ensures ReplaceAll(pat + x, pat, rep) == rep + ReplaceAll(x, pat, rep)
  {
    assert (pat + x)[..|pat|] == pat;
    assert (pat + x)[|pat|..] == x;
  }

  /** A character that cannot start a match is copied. */
  lemma ReplaceCopy(c: char, x: string, pat: string, rep: string)
    requires pat != [] && (c != pat[0] || (|pat| > 1 && x != [] && x[0] != pat[1]))
    ensures ReplaceAll([c] + x, pat, rep) == [c] + ReplaceAll(x, pat, rep)
  {
    assert ([c] + x)[1..] == x;
    if |pat| > 1 && |[c] + x| >= |pat| {
      assert ([c] + x)[..|pat|][1] == x[0];
    }
  }

  /** The "~1" pass on the encoding of one character followed by encoded
      text. */
  lemma FirstReplacementStep(c: char, x: string)
    requires '/' !in x
    ensures ReplaceAll((if c == '~' then "~0" else if c == '/' then "~1" else [c]) + x, "~1", "/")
         == (if c == '~' then "~0" else [c]) + ReplaceAll(x, "~1", "/")
  {
    if c == '/' {
      ReplaceMatch("~1", "/", x);
    } else if c == '~' {
      assert "~0" + x == ['~'] + (['0'] + x);
      ReplaceCopy('~', ['0'] + x, "~1", "/");
      ReplaceCopy('0', x, "~1", "/");
    } else {
      ReplaceCopy(c, x, "~1", "/");
    }
  }

  lemma {:induction false} FirstReplacement(s: string)
    ensures ReplaceAll(Escape(s), "~1", "/") == EscapeTilde(s)
  {
    if s != [] {
      FirstReplacement(s[1..]);
      FirstReplacementStep(s[0], Escape(s[1..]));
    }
  }

  lemma {:induction false} SecondReplacement(s: string)
    ensures ReplaceAll(EscapeTilde(s), "~0", "~") == s
  {
    if s != [] {
      var y := EscapeTilde(s[1..]);
      SecondReplacement(s[1..]);
      if s[0] == '~' {
        assert EscapeTilde(s) == "~0" + y;
        ReplaceMatch("~0", "~", y);
      } else {
        assert EscapeTilde(s) == [s[0]] + y;
        ReplaceCopy(s[0], y, "~0", "~");
      }
      assert s == [s[0]] + s[1..];
    }
  }

  /** Decoding undoes the encoding; because "~1" is replaced before "~0",
      an escaped "~1" (written "~01") decodes to "~1" and not to "/". */
  lemma UnescapeEscape(s: string)
    ensures Unescape(Escape(s)) == s
  {
    FirstReplacement(s);
    SecondReplacement(s);
  }

  function Escaped(ts: seq<string>): (es: seq<string>)
    ensures |es| == |ts| && forall k :: 0 <= k < |ts| ==> es[k] == Escape(ts[k])
  {
    seq(|ts|, k requires 0 <= k < |ts| => Escape(ts[k]))
  }

  function Unescaped(parts: seq<string>): (ts: seq<string>)
    ensures |ts| == |parts| && forall k :: 0 <= k < |parts| ==> ts[k] == Unescape(parts[k])
  {
    seq(|parts|, k requires 0 <= k < |parts| => Unescape(parts[k]))
  }

  /** The reference tokens of a pointer that starts with "/". */
  function Tokens(pointer: string): seq<string>
    requires pointer != []
  {
    Unescaped(Split(pointer[1..]))
  }

  /** The pointer that designates the tokens `ts`: each escaped and preceded
      by "/". */
  function PointerOf(ts: seq<string>): string {
    if ts == [] then "" else "/" + Escape(ts[0]) + PointerOf(ts[1..])
  }

  lemma {:induction false} PointerOfJoin(ts: seq<string>)
    requires ts != []
    ensures PointerOf(ts) == "/" + Join(Escaped(ts), "/")
  {
    if |ts| > 1 {
      PointerOfJoin(ts[1..]);
      PointerOfJoinStep(ts);
    } else {
      assert PointerOf(ts[1..]) == "";
      assert Join(Escaped(ts), "/") == Escaped(ts)[0];
    }
  }

  lemma PointerOfJoinStep(ts: seq<string>)
    requires |ts| > 1 && PointerOf(ts[1..]) == "/" + Join(Escaped(ts[1..]), "/")
    ensures PointerOf(ts) == "/" + Join(Escaped(ts), "/")
  {
    var es := Escaped(ts);
    var tail := Join(es[1..], "/");
    assert es[1..] == Escaped(ts[1..]);
    assert Join(es, "/") == es[0] + "/" + tail;
    assert PointerOf(ts) == "/" + es[0] + ("/" + tail);
    AppendAssoc("/" + es[0], "/", tail);
    AppendAssoc("/", es[0] + "/", tail);
    AppendAssoc("/", es[0], "/");
  }

  /** The tokens of the pointer built from `ts` are `ts`, whatever
      characters they hold. */
  lemma TokensOfPointer(ts: seq<string>)
    requires ts != []
    ensures PointerOf(ts) != [] && Tokens(PointerOf(ts)) == ts
  {
    PointerOfJoin(ts);
    var p := PointerOf(ts);
    assert p[1..] == Join(Escaped(ts), "/");
    SplitJoin(Escaped(ts));
    forall k | 0 <= k < |ts| ensures Tokens(p)[k] == ts[k] {
      UnescapeEscape(ts[k]);
    }
  }

  /** The error raised for a failed step, naming the pointer and the token. */
  function StepError(message: string, pointer: string, token: string): Error {
    Error(SchemaError, message, Some(JObject([("pointer", JString(pointer)), ("token", JString(token))])))
  }

  /** One step of the walk: into an array by the token's `parseInt` value,
      into an object by the token as key. */
  function Step(cursor: Json, token: string, pointer: string): (r: Result<Json>)
    ensures r.Ok? <==>
      (cursor.JArray? && ParseInt(token).Some? && 0 <= ParseInt(token).value < |cursor.items|)
      || (cursor.JObject? && token in Records.Keys(cursor.fields))
    ensures r.Ok? && cursor.JArray? ==> r.value == cursor.items[ParseInt(token).value]
    ensures r.Ok? && cursor.JObject? ==> Some(r.value) == Records.Get(cursor.fields, token)
    ensures r.Err? ==> r.error == StepError(
      if cursor.JArray? then "JSON pointer index out of bounds" else "JSON pointer target does not exist",
      pointer, token)
  {
    match cursor
    case JArray(items) =>
      var idx := ParseInt(token);
      if idx.None? || idx.value < 0 || idx.value >= |items| then
        Err(StepError("JSON pointer index out of bounds", pointer, token))
      else
        Ok(items[idx.value])
    case JObject(fields) =>
      var v := Records.Get(fields, token);
      if v.None? then Err(StepError("JSON pointer target does not exist", pointer, token))
      else Ok(v.value)
    case _ => Err(StepError("JSON pointer target does not exist", pointer, token))
  }

  /** One step per token, stopping at the first failure. */
  function Walk(cursor: Json, tokens: seq<string>, pointer: string): Result<Json>
    decreases |tokens|
  {
    if tokens == [] then Ok(cursor)
    else
      var next :- Step(cursor, tokens[0], pointer);
      Walk(next, tokens[1..], pointer)
  }

  /** What `getByJsonPointer(root, pointer)` returns or throws. */
  function Evaluate(root: Json, pointer: Option<string>): Result<Json> {
    if pointer.None? || pointer.value == "" then Ok(root)
    else if !IsPrefix("/", pointer.value) then
      Err(Error(SchemaError, "JSON pointer must start with '/'", Some(JObject([("pointer", JString(pointer.value))]))))
    else Walk(root, Tokens(pointer.value), pointer.value)
  }

  /** `getByJsonPointer`: the whole document for an empty pointer, an error
      without the leading "/", otherwise the walk. */
  method GetByJsonPointer(root: Json, pointer: Option<string>) returns (r: Result<Json>)
    ensures r == Evaluate(root, pointer)
  {
    if pointer.None? || pointer.value == "" {
      return Ok(root);
    }
    var p := pointer.value;
    if !IsPrefix("/", p) {
      return Err(Error(SchemaError, "JSON pointer must start with '/'", Some(JObject([("pointer", JString(p))]))));
    }
    r := WalkTokens(root, Tokens(p), p);
  }

  /** The loop of `getByJsonPointer`: one cursor, moved one level per
      unescaped token. */
  method WalkTokens(root: Json, tokens: seq<string>, p: string) returns (r: Result<Json>)
    ensures r == Walk(root, tokens, p)
  {
    var cursor := root;
    for i := 0 to |tokens|
      invariant Walk(root, tokens, p) == Walk(cursor, tokens[i..], p)
    {
      var token := tokens[i];
      assert tokens[i..][0] == token && tokens[i..][1..] == tokens[i + 1..];
      WalkUnfold(cursor, tokens[i..], p);
      match cursor
      case JArray(items) =>
        var idx := ParseInt(token);
        if idx.None? || idx.value < 0 || idx.value >= |items| {
          return Err(StepError("JSON pointer index out of bounds", p, token));
        }
        cursor := items[idx.value];
      case JObject(fields) =>
        var v := Records.Get(fields, token);
        if v.None? {
          return Err(StepError("JSON pointer target does not exist", p, token));
        }
        cursor := v.value;
      case _ =>
        return Err(StepError("JSON pointer target does not exist", p, token));
    }
    return Ok(cursor);
  }

  /** One step of a non-empty walk: its error, or the rest of the walk. */
  lemma WalkUnfold(c: Json, ts: seq<string>, p: string)
    requires ts != []
    ensures Step(c, ts[0], p).Err? ==> Walk(c, ts, p) == Err(Step(c, ts[0], p).error)
    ensures Step(c, ts[0], p).Ok? ==> Walk(c, ts, p) == Walk(Step(c, ts[0], p).value, ts[1..], p)
  {
  }

  /** Walking a concatenation of token lists walks the first list and then
      the second from where the first ended. */
  lemma {:induction false} WalkAppend(c: Json, a: seq<string>, b: seq<string>, p: string)
    ensures Walk(c, a + b, p) == (match Walk(c, a, p) case Ok(v) => Walk(v, b, p) case Err(e) => Err(e))
    decreases |a|
  {
    if a == [] {
      assert a + b == b;
    } else {
      assert (a + b)[0] == a[0];
      assert (a + b)[1..] == a[1..] + b;
      var s := Step(c, a[0], p);
      if s.Ok? {
        WalkAppend(s.value, a[1..], b, p);
        assert Walk(c, a + b, p) == Walk(s.value, a[1..] + b, p);
        assert Walk(c, a, p) == Walk(s.value, a[1..], p);
      }
    }
  }

  /** The pointer text only appears in error details: whether a walk
      succeeds, and where it ends, does not depend on it. */
  lemma {:induction false} WalkPointerIrrelevant(c: Json, ts: seq<string>, p: string, q: string)
    ensures Walk(c, ts, p).Ok? == Walk(c, ts, q).Ok?
    ensures Walk(c, ts, p).Ok? ==> Walk(c, ts, p).value == Walk(c, ts, q).value
    decreases |ts|
  {
    if ts != [] {
      var s := Step(c, ts[0], p);
      if s.Ok? {
        WalkPointerIrrelevant(s.value, ts[1..], p, q);
      }
    }
  }

  /** Every failure is a `SCHEMA_ERROR`; an out-of-bounds failure is only
      raised where the walk stands on an array. */
  lemma {:induction false} WalkErrors(c: Json, ts: seq<string>, p: string)
    ensures Walk(c, ts, p).Err? ==> Walk(c, ts, p).error.code == SchemaError
    ensures Walk(c, ts, p).Err? ==>
      Walk(c, ts, p).error.message in {"JSON pointer index out of bounds", "JSON pointer target does not exist"}
    decreases |ts|
  {
    if ts != [] {
      var s := Step(c, ts[0], p);
      if s.Ok? {
        WalkErrors(s.value, ts[1..], p);
      }
    }
  }

  /** A pointer that is absent or empty designates the root; one that does
      not start with "/" is rejected; any other is walked token by token. */
  lemma EvaluateCases(root: Json, pointer: Option<string>)
    ensures pointer.None? || pointer == Some("") ==> Evaluate(root, pointer) == Ok(root)
    ensures pointer.Some? && pointer.value != "" && !IsPrefix("/", pointer.value) ==>
      Evaluate(root, pointer).Err? && Evaluate(root, pointer).error.code == SchemaError
    ensures Evaluate(root, pointer).Err? ==> Evaluate(root, pointer).error.code == SchemaError
  {
    if pointer.Some? && pointer.value != "" && IsPrefix("/", pointer.value) {
      WalkErrors(root, Tokens(pointer.value), pointer.value);
    }
  }

  /** Evaluating the pointer built from tokens walks exactly those tokens. */
  lemma EvaluatePointerOf(root: Json, ts: seq<string>)
    requires ts != []
    ensures Evaluate(root, Some(PointerOf(ts))) == Walk(root, ts, PointerOf(ts))
  {
    TokensOfPointer(ts);
  }

  /** A decimal index designates that element of an array. */
  lemma IndexToken(items: seq<Json>, n: nat, p: string)
    requires n < |items|
    ensures Step(JArray(items), NatToString(n), p) == Ok(items[n])
  {
    NatToStringRoundTrip(n);
  }

  /** The tokens of `p1 + p2` are those of `p1` followed by those of `p2`. */
  lemma TokensCompose(p1: string, p2: string)
    requires IsPrefix("/", p1) && IsPrefix("/", p2)
    ensures IsPrefix("/", p1 + p2)
    ensures Tokens(p1 + p2) == Tokens(p1) + Tokens(p2)
  {
    var p := p1 + p2;
    assert p[..1] == p1[..1];
    assert p[1..] == p1[1..] + "/" + p2[1..] by {
      assert p1 == "/" + p1[1..];
      assert p2 == "/" + p2[1..];
    }
    SplitConcat(p1[1..], p2[1..]);
    var s1 := Split(p1[1..]);
    var s2 := Split(p2[1..]);
    assert Unescaped(s1 + s2) == Unescaped(s1) + Unescaped(s2);
  }

  /** Evaluating `p1 + p2` is evaluating `p1` and then `p2` from its target. */
  lemma EvaluateCompose(root: Json, p1: string, p2: string)
    requires IsPrefix("/", p1) && IsPrefix("/", p2)
    ensures var first := Evaluate(root, Some(p1));
      Evaluate(root, Some(p1 + p2)).Ok? <==> first.Ok? && Evaluate(first.value, Some(p2)).Ok?
    ensures var first := Evaluate(root, Some(p1));
      first.Ok? && Evaluate(first.value, Some(p2)).Ok? ==>
        Evaluate(root, Some(p1 + p2)).value == Evaluate(first.value, Some(p2)).value
  {
    var p := p1 + p2;
    TokensCompose(p1, p2);
    var t1, t2 := Tokens(p1), Tokens(p2);
    assert Evaluate(root, Some(p)) == Walk(root, t1 + t2, p);
    assert Evaluate(root, Some(p1)) == Walk(root, t1, p1);
    WalkAppend(root, t1, t2, p);
    WalkPointerIrrelevant(root, t1, p, p1);
    var w := Walk(root, t1, p);
    if w.Ok? {
      assert Evaluate(w.value, Some(p2)) == Walk(w.value, t2, p2);
      WalkPointerIrrelevant(w.value, t2, p, p2);
    }
  }
}
