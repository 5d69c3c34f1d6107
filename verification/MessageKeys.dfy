/** Message keys of the invoice warnings, over ASCII codes. */
module MessageKeys {
  import opened Strings

  predicate IsLower(c: char) { 'a' <= c <= 'z' }

  predicate IsUpper(c: char) { 'A' <= c <= 'Z' }

  function Upper(c: char): char {
    if IsLower(c) then ((c as int) - 32) as char else c
  }

  function Lower(c: char): char {
    if IsUpper(c) then ((c as int) + 32) as char else c
  }

  function LowerAll(s: string): string {
    seq(|s|, k requires 0 <= k < |s| => Lower(s[k]))
  }

  /** `str.capitalize`. */
  function Capitalize(s: string): string {
    if s == "" then "" else [Upper(s[0])] + LowerAll(s[1..])
  }

  /** `code.split("_")`. */
  function Split(s: string): (parts: seq<string>)
    ensures |parts| > 0
  {
    if s == "" then [""]
    else
      var rest := Split(s[1..]);
      if s[0] == '_' then [""] + rest else [[s[0]] + rest[0]] + rest[1..]
  }

  function CapitalizeAll(parts: seq<string>): string {
    if parts == [] then "" else Capitalize(parts[0]) + CapitalizeAll(parts[1..])
  }

  const KEY_PREFIX := "invoices.warning."

  function Join(parts: seq<string>): string
    requires |parts| > 0
  {
    parts[0] + CapitalizeAll(parts[1..])
  }

  function Body(code: string): string {
    Join(Split(code))
  }

  function MessageKey(code: string): string {
    KEY_PREFIX + Body(code)
  }

  /** Reads a key back: each capital starts a part. */
  function Decode(body: string): string {
    if body == "" then ""
    else (if IsUpper(body[0]) then ['_', Lower(body[0])] else [body[0]]) + Decode(body[1..])
  }

  function DecodeKey(key: string): string
    requires KEY_PREFIX <= key
  {
    Decode(key[|KEY_PREFIX|..])
  }

  predicate NoCapitals(code: string) {
    forall k | 0 <= k < |code| :: !IsUpper(code[k])
  }

  /** Every part after the first starts with a letter. */
  predicate PartsStartWithLetters(code: string) {
    forall k | 0 <= k < |code| && code[k] == '_' :: k + 1 < |code| && IsLower(code[k + 1])
  }

  /** A key says which code it came from exactly for codes without capitals whose later parts
      all start with a letter. */
  lemma KeyDecodes(code: string)
    ensures DecodeKey(MessageKey(code)) == code <==> NoCapitals(code) && PartsStartWithLetters(code)
  {
    assert MessageKey(code)[|KEY_PREFIX|..] == Body(code);
    DecodedHasNoCapitals(Body(code));
    if NoCapitals(code) {
      CountsPartStarts(code);
      if PartsStartWithLetters(code) {
        BodyDecodes(code);
      }
    }
  }

  lemma KeysAreInjective(a: string, b: string)
    requires NoCapitals(a) && PartsStartWithLetters(a) && NoCapitals(b) && PartsStartWithLetters(b)
    requires MessageKey(a) == MessageKey(b)
    ensures a == b
  {
    KeyDecodes(a);
    KeyDecodes(b);
  }

  predicate IsLetter(c: char) {
    IsLower(c) || IsUpper(c)
  }

  /** A code's normal form: an underscore stays only before a letter, a capital starts a part in the
      first part and is lowered in a later one. */
  function Normal(code: string, first: bool): string {
    if code == "" then ""
    else
      var c, rest := code[0], code[1..];
      if c == '_' then (if rest != "" && IsLetter(rest[0]) then "_" else "") + Normal(rest, false)
      else if first && IsUpper(c) then ['_', Lower(c)] + Normal(rest, true)
      else [Lower(c)] + Normal(rest, first)
  }

  /** Two codes share a key exactly when they have one normal form. */
  lemma SharedKeysAreNormalForms(a: string, b: string)
    ensures MessageKey(a) == MessageKey(b) <==> Normal(a, true) == Normal(b, true)
  {
    DecodedBodyIsNormal(a);
    DecodedBodyIsNormal(b);
    BodyHasNoUnderscore(a);
    BodyHasNoUnderscore(b);
    ReadBackDecoded(Body(a));
    ReadBackDecoded(Body(b));
    assert MessageKey(a)[|KEY_PREFIX|..] == Body(a) && MessageKey(b)[|KEY_PREFIX|..] == Body(b);
  }

  /** For one, an empty part leaves no trace. */
  lemma EmptyPartsCollide(a: string, b: string)
    ensures MessageKey(a + "_" + b) == MessageKey(a + "__" + b)
  {
    SplitAppend(a, b);
    SplitAppend(a, "_" + b);
    SplitAppend("", b);
    TwoUnderscores(a, b);
    assert Split(a) + ([""] + Split(b)) == Split(a) + [""] + Split(b);
    EmptyPartLeavesNoTrace(Split(a), Split(b));
  }

  lemma TwoUnderscores(a: string, b: string)
    ensures a + "_" + ("_" + b) == a + "__" + b && "" + "_" + b == "_" + b
  {
    assert "__" == "_" + "_";
  }

  // ----- proofs -----

  lemma {:induction false} SplitAppend(a: string, b: string)
    ensures Split(a + "_" + b) == Split(a) + Split(b)
  {
    if a == "" {
      assert ("_" + b)[1..] == b && a + "_" + b == "_" + b;
    } else {
      assert (a + "_" + b)[1..] == a[1..] + "_" + b;
      SplitAppend(a[1..], b);
    }
  }

  lemma {:induction false} CapitalizeAppend(x: seq<string>, y: seq<string>)
    ensures CapitalizeAll(x + y) == CapitalizeAll(x) + CapitalizeAll(y)
  {
    if x == [] {
      assert x + y == y;
    } else {
      assert (x + y)[1..] == x[1..] + y;
      CapitalizeAppend(x[1..], y);
    }
  }

  lemma EmptyPartIsSkipped(parts: seq<string>)
    ensures CapitalizeAll([""] + parts) == CapitalizeAll(parts)
  {
    assert ([""] + parts)[1..] == parts;
    assert CapitalizeAll([""] + parts) == "" + CapitalizeAll(parts);
  }

  lemma EmptyPartLeavesNoTrace(p: seq<string>, q: seq<string>)
    requires |p| > 0
    ensures Join(p + [""] + q) == Join(p + q)
  {
    var rest, long := p[1..], p + [""] + q;
    assert long[1..] == rest + ([""] + q) && long[0] == p[0];
    assert (p + q)[1..] == rest + q && (p + q)[0] == p[0];
    assert CapitalizeAll(rest + ([""] + q)) == CapitalizeAll(rest + q) by {
      CapitalizeAppend(rest, [""] + q);
      CapitalizeAppend(rest, q);
      EmptyPartIsSkipped(q);
    }
  }

  lemma {:induction false} DecodedHasNoCapitals(body: string)
    ensures NoCapitals(Decode(body))
  {
    if body != "" {
      DecodedHasNoCapitals(body[1..]);
    }
  }

  lemma {:induction false} FirstPartIsPrefix(s: string)
    ensures Split(s)[0] <= s
  {
    if s != "" {
      FirstPartIsPrefix(s[1..]);
    }
  }

  lemma CapitalizeFirst(c: char, part: string)
    requires NoCapitals(part)
    ensures Capitalize([c] + part) == [Upper(c)] + part
  {
    assert ([c] + part)[1..] == part;
    assert LowerAll(part) == part;
  }

  lemma SplitUnfolds(s: string)
    requires s != "" && NoCapitals(s)
    ensures var rest := Split(s[1..]);
            && NoCapitals(rest[0])
            && Split(s) == if s[0] == '_' then [""] + rest else [[s[0]] + rest[0]] + rest[1..]
  {
    FirstPartIsPrefix(s[1..]);
  }

  lemma JoinUnfolds(c: char, first: string, parts: seq<string>)
    requires NoCapitals(first)
    ensures Join([[c] + first] + parts) == [c] + Join([first] + parts)
    ensures CapitalizeAll([[c] + first] + parts) == [Upper(c)] + Join([first] + parts)
  {
    var longer, shorter := [[c] + first] + parts, [first] + parts;
    assert longer[0] == [c] + first && longer[1..] == parts;
    assert shorter[0] == first && shorter[1..] == parts;
    CapitalizeFirst(c, first);
    var tail := CapitalizeAll(parts);
    assert CapitalizeAll(longer) == ([Upper(c)] + first) + tail;
    Regroup(c, first, tail);
    Regroup(Upper(c), first, tail);
  }

  /** How a code's key, and a later part's share of one, unfold from the first character. */
  lemma KeysUnfold(s: string)
    requires s != "" && NoCapitals(s)
    ensures s[0] == '_' ==>
      Body(s) == CapitalizeAll(Split(s[1..])) && CapitalizeAll(Split(s)) == CapitalizeAll(Split(s[1..]))
    ensures s[0] != '_' ==>
      Body(s) == [s[0]] + Body(s[1..]) && CapitalizeAll(Split(s)) == [Upper(s[0])] + Body(s[1..])
  {
    var rest := Split(s[1..]);
    SplitUnfolds(s);
    if s[0] == '_' {
      EmptyPartIsSkipped(rest);
      assert ([""] + rest)[1..] == rest;
    } else {
      JoinUnfolds(s[0], rest[0], rest[1..]);
      assert [rest[0]] + rest[1..] == rest;
    }
  }

  lemma {:induction false} BodyDecodes(s: string)
    requires NoCapitals(s) && PartsStartWithLetters(s)
    ensures Decode(Body(s)) == s
    decreases |s|
  {
    if s != "" {
      KeysUnfold(s);
      if s[0] != '_' {
        BodyDecodes(s[1..]);
      } else {
        KeysUnfold(s[1..]);
        BodyDecodes(s[2..]);
        var body := Body(s);
        assert s[1..][1..] == s[2..];
        assert body[0] == Upper(s[1]) && body[1..] == Body(s[2..]);
        assert s == ['_', s[1]] + s[2..];
      }
    }
  }

  function Underscores(s: string): nat {
    if s == "" then 0 else (if s[0] == '_' then 1 else 0) + Underscores(s[1..])
  }

  /** Decoding finds one underscore for each part that starts with a letter. */
  lemma {:induction false} CountsPartStarts(s: string)
    requires NoCapitals(s)
    ensures var n := Underscores(Decode(Body(s)));
            n <= Underscores(s) && (n == Underscores(s) <==> PartsStartWithLetters(s))
    ensures var n := Underscores(Decode(CapitalizeAll(Split(s))));
            && n <= Underscores(s) + 1
            && (n == Underscores(s) + 1 <==> PartsStartWithLetters(s) && s != "" && IsLower(s[0]))
    decreases |s|
  {
    if s != "" {
      var t := s[1..];
      KeysUnfold(s);
      CountsPartStarts(t);
      PartsUnfold(s);
      if s[0] != '_' {
        var body, part := Body(s), CapitalizeAll(Split(s));
        assert body[1..] == Body(t) && part[1..] == Body(t);
        DecodeUnfolds(body);
        DecodeUnfolds(part);
      }
    }
  }

  lemma PartsUnfold(s: string)
    requires s != ""
    ensures PartsStartWithLetters(s)
       <==> PartsStartWithLetters(s[1..]) && (s[0] == '_' ==> |s| > 1 && IsLower(s[1]))
  {
    var t := s[1..];
    if PartsStartWithLetters(t) && (s[0] == '_' ==> |s| > 1 && IsLower(s[1])) {
      forall k | 0 <= k < |s| && s[k] == '_' ensures k + 1 < |s| && IsLower(s[k + 1]) {
        assert k > 0 ==> t[k - 1] == '_' && t[k - 1 + 1] == s[k + 1];
      }
    }
    if PartsStartWithLetters(s) {
      forall k | 0 <= k < |t| && t[k] == '_' ensures k + 1 < |t| && IsLower(t[k + 1]) {
        assert s[k + 1] == '_' && t[k + 1] == s[k + 2];
      }
    }
  }

  lemma DecodeUnfolds(body: string)
    requires body != ""
    ensures Underscores(Decode(body))
         == (if IsUpper(body[0]) || body[0] == '_' then 1 else 0) + Underscores(Decode(body[1..]))
  {
    var rest := Decode(body[1..]);
    if IsUpper(body[0]) {
      var c := Lower(body[0]);
      assert (['_', c] + rest)[1..] == [c] + rest && ([c] + rest)[1..] == rest;
    } else {
      assert ([body[0]] + rest)[1..] == rest;
    }
  }

  // ----- normal forms -----

  function Tail(parts: seq<string>): string
    requires |parts| > 0
  {
    LowerAll(parts[0]) + CapitalizeAll(parts[1..])
  }

  lemma LowerFirst(c: char, part: string)
    ensures LowerAll([c] + part) == [Lower(c)] + LowerAll(part)
    ensures Capitalize([c] + part) == [Upper(c)] + LowerAll(part)
  {
    assert ([c] + part)[1..] == part;
  }

  /** How a part in the first place, in a later one, and one just begun unfold. */
  lemma PartsUnfoldAt(c: char, part: string, parts: seq<string>)
    ensures var longer, shorter := [[c] + part] + parts, [part] + parts;
            && Join(longer) == [c] + Join(shorter)
            && Tail(longer) == [Lower(c)] + Tail(shorter)
            && CapitalizeAll(longer) == [Upper(c)] + Tail(shorter)
  {
    var longer, shorter := [[c] + part] + parts, [part] + parts;
    assert longer[0] == [c] + part && longer[1..] == parts && shorter[0] == part && shorter[1..] == parts;
    LowerFirst(c, part);
    var tail := CapitalizeAll(parts);
    assert CapitalizeAll(longer) == Capitalize([c] + part) + tail;
    Regroup(c, part, tail);
    Regroup(Lower(c), LowerAll(part), tail);
    Regroup(Upper(c), LowerAll(part), tail);
  }

  lemma UnderscoreUnfolds(parts: seq<string>)
    ensures var longer := [""] + parts;
            Join(longer) == CapitalizeAll(parts) && Tail(longer) == CapitalizeAll(parts)
            && CapitalizeAll(longer) == CapitalizeAll(parts)
  {
    var longer := [""] + parts;
    assert longer[0] == "" && longer[1..] == parts && LowerAll("") == "";
    EmptyPartIsSkipped(parts);
  }

  /** The three ways a code's rest enters its key, from the first character. */
  lemma RestUnfolds(s: string)
    requires s != ""
    ensures s[0] == '_' ==>
      && Join(Split(s)) == CapitalizeAll(Split(s[1..])) && Tail(Split(s)) == CapitalizeAll(Split(s[1..]))
      && CapitalizeAll(Split(s)) == CapitalizeAll(Split(s[1..]))
    ensures s[0] != '_' ==>
      && Join(Split(s)) == [s[0]] + Join(Split(s[1..])) && Tail(Split(s)) == [Lower(s[0])] + Tail(Split(s[1..]))
      && CapitalizeAll(Split(s)) == [Upper(s[0])] + Tail(Split(s[1..]))
  {
    var rest := Split(s[1..]);
    if s[0] == '_' {
      UnderscoreUnfolds(rest);
    } else {
      PartsUnfoldAt(s[0], rest[0], rest[1..]);
      assert [rest[0]] + rest[1..] == rest;
    }
  }

  lemma DecodeFirst(c: char, body: string)
    ensures Decode([c] + body) == (if IsUpper(c) then ['_', Lower(c)] else [c]) + Decode(body)
  {
    assert ([c] + body)[1..] == body;
  }

  /** A part just begun, as it is decoded. */
  function Begun(s: string): string {
    (if s != "" && IsLetter(s[0]) then "_" else "") + Normal(s, false)
  }

  lemma BegunUnfolds(s: string)
    requires s != "" && s[0] != '_'
    ensures Begun(s) == (if IsLetter(s[0]) then ['_', Lower(s[0])] else [s[0]]) + Normal(s[1..], false)
  {
    assert Normal(s, false) == [Lower(s[0])] + Normal(s[1..], false);
    if IsLetter(s[0]) {
      assert "_" + ([Lower(s[0])] + Normal(s[1..], false)) == ['_', Lower(s[0])] + Normal(s[1..], false);
    }
  }

  lemma {:induction false} DecodedRest(s: string)
    ensures Decode(Join(Split(s))) == Normal(s, true)
    ensures Decode(Tail(Split(s))) == Normal(s, false)
    ensures Decode(CapitalizeAll(Split(s))) == Begun(s)
    decreases |s|
  {
    if s == "" {
      NothingDecoded();
    } else {
      var c, rest := s[0], s[1..];
      RestUnfolds(s);
      DecodedRest(rest);
      if c != '_' {
        DecodeFirst(c, Join(Split(rest)));
        DecodeFirst(Lower(c), Tail(Split(rest)));
        DecodeFirst(Upper(c), Tail(Split(rest)));
        BegunUnfolds(s);
      }
    }
  }

  lemma NothingDecoded()
    ensures Join(Split("")) == "" && Tail(Split("")) == "" && CapitalizeAll(Split("")) == ""
  {
    assert Split("") == [""] && [""][1..] == [] && LowerAll("") == "" && Capitalize("") == "";
    assert CapitalizeAll([""]) == "" + CapitalizeAll([]);
  }

  lemma DecodedBodyIsNormal(code: string)
    ensures Decode(Body(code)) == Normal(code, true)
  {
    DecodedRest(code);
  }

  lemma {:induction false} KeysHaveNoUnderscore(s: string)
    ensures '_' !in Join(Split(s)) && '_' !in Tail(Split(s)) && '_' !in CapitalizeAll(Split(s))
    decreases |s|
  {
    if s == "" {
      NothingDecoded();
    } else {
      RestUnfolds(s);
      KeysHaveNoUnderscore(s[1..]);
    }
  }

  lemma BodyHasNoUnderscore(code: string)
    ensures '_' !in Body(code)
  {
    KeysHaveNoUnderscore(code);
  }

  /** Undoes Decode. */
  function ReadBack(decoded: string): string {
    if decoded == "" then ""
    else if decoded[0] == '_' && |decoded| > 1 then [Upper(decoded[1])] + ReadBack(decoded[2..])
    else [decoded[0]] + ReadBack(decoded[1..])
  }

  lemma {:induction false} ReadBackDecoded(body: string)
    requires '_' !in body
    ensures ReadBack(Decode(body)) == body
    decreases |body|
  {
    if body != "" {
      var c, rest := body[0], Decode(body[1..]);
      assert c in body;
      ReadBackDecoded(body[1..]);
      if IsUpper(c) {
        assert (['_', Lower(c)] + rest)[2..] == rest && Upper(Lower(c)) == c;
      } else {
        assert ([c] + rest)[1..] == rest;
      }
      assert body == [c] + body[1..];
    }
  }
}
