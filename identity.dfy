/** The user identifier handling of the mobile view model
    (ArgosApp/app/src/main/java/com/example/argosapp/MainViewModel.java):
    the storage key derived from a login identifier (`sanitizeIdentifier`) and
    the display name shown on the scan screen (`deriveDisplayName`). */
module UserIdentity {
  import opened Wrappers
  import opened Text

  const DefaultUserKey: string := "guest"

  // ---------------------------------------------------------------- storage key

  /** The characters `[a-z0-9]` that survive sanitising. */
  predicate IsKeyChar(c: char) { IsAsciiLower(c) || IsDigit(c) }

  /** Drops the leading run of characters outside `[a-z0-9]`. */
  function SkipRun(s: string): (r: string)
    ensures |r| <= |s| && r == s[|s| - |r|..]
    ensures r == [] || IsKeyChar(r[0])
    ensures s != [] && !IsKeyChar(s[0]) ==> |r| < |s|
    ensures forall i :: 0 <= i < |s| - |r| ==> !IsKeyChar(s[i])
  {
    if s != [] && !IsKeyChar(s[0]) then
      var r := SkipRun(s[1..]);
      assert s[1..][|s| - 1 - |r|..] == s[|s| - |r|..];
      assert forall i :: 1 <= i < |s| - |r| ==> s[i] == s[1..][i - 1];
      r
    else s
  }

  /** `replaceAll("[^a-z0-9]+", "_")`: every maximal run of characters outside
      `[a-z0-9]` becomes one underscore. The result is over `[a-z0-9_]` and
      never holds two underscores in a row. */
  function CollapseRuns(s: string): (r: string)
    ensures s != [] ==> r != []
    ensures forall i :: 0 <= i < |r| ==> IsKeyChar(r[i]) || r[i] == '_'
    ensures forall i :: 0 <= i < |r| - 1 ==> !(r[i] == '_' && r[i + 1] == '_')
    ensures s != [] && IsKeyChar(s[0]) ==> r[0] == s[0]
    decreases |s|
  {
    if s == [] then []
    else if IsKeyChar(s[0]) then [s[0]] + CollapseRuns(s[1..])
    else "_" + CollapseRuns(SkipRun(s))
  }

  /** The `[a-z0-9]` characters of `s`, in order. */
  function KeyChars(s: string): string
  {
    if s == [] then []
    else (if IsKeyChar(s[0]) then [s[0]] else []) + KeyChars(s[1..])
  }

  lemma {:induction false} SkipRunKeyChars(s: string)
    ensures KeyChars(SkipRun(s)) == KeyChars(s)
  {
    if s != [] && !IsKeyChar(s[0]) {
      SkipRunKeyChars(s[1..]);
    }
  }

  /** Sanitising only replaces separators: the letters and digits are kept,
      in order. */
  lemma {:induction false} CollapseRunsKeepsKeyChars(s: string)
    ensures KeyChars(CollapseRuns(s)) == KeyChars(s)
    decreases |s|
  {
    if s == [] {
    } else if IsKeyChar(s[0]) {
      CollapseRunsKeepsKeyChars(s[1..]);
      assert ([s[0]] + CollapseRuns(s[1..]))[1..] == CollapseRuns(s[1..]);
    } else {
      var t := SkipRun(s);
      CollapseRunsKeepsKeyChars(t);
      SkipRunKeyChars(s);
      assert ("_" + CollapseRuns(t))[1..] == CollapseRuns(t);
    }
  }

  /** A sanitised key: over `[a-z0-9_]`, no two underscores in a row. */
  predicate IsUserKey(s: string) {
    && (forall i :: 0 <= i < |s| ==> IsKeyChar(s[i]) || s[i] == '_')
    && (forall i :: 0 <= i < |s| - 1 ==> !(s[i] == '_' && s[i + 1] == '_'))
  }

  /** Collapsing a string that is already a key changes nothing. */
  lemma {:induction false} CollapseRunsFixedPoint(s: string)
    requires IsUserKey(s)
    ensures CollapseRuns(s) == s
    decreases |s|
  {
    if s == [] {
    } else if IsKeyChar(s[0]) {
      assert IsUserKey(s[1..]) by {
        assert forall i :: 0 <= i < |s| - 1 ==> s[1..][i] == s[i + 1];
      }
      CollapseRunsFixedPoint(s[1..]);
    } else {
      assert s[0] == '_';
      assert SkipRun(s) == s[1..] by {
        assert |s| == 1 || IsKeyChar(s[1]);
      }
      assert IsUserKey(s[1..]) by {
        assert forall i :: 0 <= i < |s| - 1 ==> s[1..][i] == s[i + 1];
      }
      CollapseRunsFixedPoint(s[1..]);
    }
  }

  /** A cut that does not fall inside a run: one side is empty, or a kept
      character stands next to it. */
  predicate RunBoundary(p: string, q: string) {
    p == [] || q == [] || IsKeyChar(p[|p| - 1]) || IsKeyChar(q[0])
  }

  lemma {:induction false} SkipRunAppend(p: string, q: string)
    requires p != [] && RunBoundary(p, q)
    ensures SkipRun(p + q) == SkipRun(p) + q
  {
    if !IsKeyChar(p[0]) {
      assert (p + q)[1..] == p[1..] + q;
      if p[1..] == [] {
        assert SkipRun(q) == q;
      } else {
        SkipRunAppend(p[1..], q);
      }
    }
  }

  /** A whole run of characters outside `[a-z0-9]` becomes one underscore. */
  lemma {:induction false} CollapseRunsOfRun(s: string)
    requires s != [] && forall i :: 0 <= i < |s| ==> !IsKeyChar(s[i])
    ensures CollapseRuns(s) == "_"
  {
    assert SkipRun(s) == [];
  }

  /** Collapsing works piece by piece across a cut outside any run: every run
      is replaced where it stands and the kept characters stay in place. With
      `CollapseRunsOfRun` and `CollapseRunsFixedPoint` this determines the
      result for every text. */
  lemma {:induction false} CollapseRunsSplit(p: string, q: string)
    requires RunBoundary(p, q)
    ensures CollapseRuns(p + q) == CollapseRuns(p) + CollapseRuns(q)
    decreases |p|
  {
    if p == [] {
      assert p + q == q;
    } else if IsKeyChar(p[0]) {
      CollapseRunsKeptStep(p, q);
      CollapseRunsSplit(p[1..], q);
      AppendAssoc([p[0]], CollapseRuns(p[1..]), CollapseRuns(q));
    } else {
      CollapseRunsRunStep(p, q);
      var t := SkipRun(p);
      assert RunBoundary(t, q) by {
        assert t == [] || t[|t| - 1] == p[|p| - 1];
      }
      CollapseRunsSplit(t, q);
      AppendAssoc("_", CollapseRuns(t), CollapseRuns(q));
    }
  }

  lemma CollapseRunsKeptStep(p: string, q: string)
    requires p != [] && IsKeyChar(p[0])
    ensures CollapseRuns(p) == [p[0]] + CollapseRuns(p[1..])
    ensures CollapseRuns(p + q) == [p[0]] + CollapseRuns(p[1..] + q)
  {
    assert (p + q)[0] == p[0] && (p + q)[1..] == p[1..] + q;
  }

  lemma CollapseRunsRunStep(p: string, q: string)
    requires p != [] && !IsKeyChar(p[0]) && RunBoundary(p, q)
    ensures CollapseRuns(p) == "_" + CollapseRuns(SkipRun(p))
    ensures CollapseRuns(p + q) == "_" + CollapseRuns(SkipRun(p) + q)
  {
    SkipRunAppend(p, q);
    assert (p + q)[0] == p[0];
  }

  lemma AppendAssoc(a: string, b: string, c: string)
    ensures a + (b + c) == (a + b) + c
  {
  }

  /** `sanitizeIdentifier`: the key under which a user's scan history is stored. */
  function SanitizeIdentifier(identifier: Option<string>): (key: string)
    ensures key != [] && IsUserKey(key)
    ensures identifier.None? ==> key == DefaultUserKey
  {
    if identifier.None? then DefaultUserKey
    else
      var trimmed := ToLower(JavaTrim(identifier.value));
      if trimmed == [] then DefaultUserKey
      else
        var sanitized := CollapseRuns(trimmed);
        if sanitized == [] then DefaultUserKey else sanitized
  }

  /** A missing or blank identifier maps to "guest"; any other maps to a
      non-empty key over `[a-z0-9_]` with no doubled underscore: the trimmed,
      lower-cased identifier with its runs collapsed (`CollapseRunsSplit`,
      `CollapseRunsOfRun`), which keeps its letters and digits in order. */
  lemma {:induction false} SanitizeIdentifierShape(identifier: Option<string>)
    ensures var key := SanitizeIdentifier(identifier);
      && key != [] && IsUserKey(key)
      && (identifier.None? || (forall i :: 0 <= i < |identifier.value| ==> IsJavaTrimmable(identifier.value[i]))
          ==> key == DefaultUserKey)
      && (identifier.Some? && JavaTrim(identifier.value) != [] ==>
          && key == CollapseRuns(ToLower(JavaTrim(identifier.value)))
          && KeyChars(key) == KeyChars(ToLower(JavaTrim(identifier.value))))
  {
    assert IsUserKey(DefaultUserKey);
    if identifier.Some? {
      var trimmed := JavaTrim(identifier.value);
      var lowered := ToLower(trimmed);
      assert |lowered| == |trimmed|;
      if trimmed != [] {
        CollapseRunsKeepsKeyChars(lowered);
        assert SanitizeIdentifier(identifier) == CollapseRuns(lowered);
      }
    }
  }

  /** Signing in again with a derived key selects the same history. */
  lemma SanitizeIdentifierIdempotent(identifier: Option<string>)
    ensures SanitizeIdentifier(Some(SanitizeIdentifier(identifier))) == SanitizeIdentifier(identifier)
  {
    var key := SanitizeIdentifier(identifier);
    SanitizeIdentifierShape(identifier);
    UserKeyIsTrimmedLower(key);
    CollapseRunsFixedPoint(key);
  }

  lemma {:induction false} UserKeyIsTrimmedLower(key: string)
    requires key != [] && IsUserKey(key)
    ensures ToLower(JavaTrim(key)) == key
  {
    assert !IsJavaTrimmable(key[0]) && !IsJavaTrimmable(key[|key| - 1]);
    TrimKeepsTrimmed(key, IsJavaTrimmable);
    assert ToLower(key) == key;
  }

  // ---------------------------------------------------------------- display name

  /** All characters of `s` satisfy `p`. */
  predicate AllChars(s: string, p: char -> bool) {
    forall i :: 0 <= i < |s| ==> p(s[i])
  }

  /** The pieces of `s` between the characters satisfying `isSep`; two
      separators in a row give an empty piece. */
  function SplitWhere(s: string, isSep: char -> bool): (r: seq<string>)
    ensures |r| >= 1
  {
    if s == [] then [""]
    else
      var rest := SplitWhere(s[1..], isSep);
      if isSep(s[0]) then [""] + rest else [[s[0]] + rest[0]] + rest[1..]
  }

  /** Every piece holds no separator, and only characters of `s`. */
  predicate PiecesOf(r: seq<string>, s: string, isSep: char -> bool) {
    forall k, i :: 0 <= k < |r| && 0 <= i < |r[k]| ==> !isSep(r[k][i]) && r[k][i] in s
  }

  lemma {:induction false} SplitWherePieces(s: string, isSep: char -> bool)
    ensures PiecesOf(SplitWhere(s, isSep), s, isSep)
  {
    if s != [] {
      var rest := SplitWhere(s[1..], isSep);
      SplitWherePieces(s[1..], isSep);
      var r := SplitWhere(s, isSep);
      forall k, i | 0 <= k < |r| && 0 <= i < |r[k]| ensures !isSep(r[k][i]) && r[k][i] in s {
        var c := r[k][i];
        if isSep(s[0]) {
          assert r[k] == rest[k - 1];
          assert c == rest[k - 1][i];
        } else if k == 0 && i == 0 {
          assert c == s[0];
        } else if k == 0 {
          assert c == rest[0][i - 1];
        } else {
          assert r[k] == rest[k];
          assert c == rest[k][i];
        }
        assert !isSep(c) && (c in s[1..] || c == s[0]);
        assert c in s;
      }
    }
  }

  /** The tokens the display-name loop does not skip. */
  function NonEmptyTokens(tokens: seq<string>): (r: seq<string>)
    ensures forall k :: 0 <= k < |r| ==> r[k] != [] && r[k] in tokens
  {
    if tokens == [] then []
    else
      var last := tokens[|tokens| - 1];
      NonEmptyTokens(tokens[..|tokens| - 1]) + (if last != [] then [last] else [])
  }

  /** `Character.toUpperCase(lower.charAt(0)) + lower.substring(1)` of the
      lower-cased token: the first letter upper case, the rest lower case. */
  function Capitalize(t: string): (r: string)
    requires t != []
    ensures |r| == |t| && r[0] == UpperChar(LowerChar(t[0]))
    ensures forall i :: 1 <= i < |t| ==> r[i] == LowerChar(t[i])
  {
    var lower := ToLower(t);
    [UpperChar(lower[0])] + lower[1..]
  }

  lemma CapitalizeIdempotent(t: string)
    requires t != []
    ensures Capitalize(Capitalize(t)) == Capitalize(t)
  {
    var r := Capitalize(t);
    var again := Capitalize(r);
    forall i | 0 <= i < |r| ensures again[i] == r[i] {
    }
  }

  /** The non-empty tokens, each capitalised. */
  function CapitalizedWords(tokens: seq<string>): (r: seq<string>)
    ensures |r| == |NonEmptyTokens(tokens)|
  {
    var words := NonEmptyTokens(tokens);
    seq(|words|, k requires 0 <= k < |words| => Capitalize(words[k]))
  }

  predicate IsNameSeparator(c: char) { c == '_' || c == '.' || c == '-' }

  /** The part before the first '@', when that is not the first character. */
  function CutAtSign(trimmed: string): string
  {
    var at := IndexOf(trimmed, '@');
    if at > 0 then trimmed[..at] else trimmed
  }

  /** `replace('_', ' ').replace('.', ' ').replace('-', ' ')` */
  function SpaceSeparators(s: string): (r: string)
    ensures |r| == |s|
    ensures forall i :: 0 <= i < |s| ==> r[i] == if IsNameSeparator(s[i]) then ' ' else s[i]
  {
    ReplaceChar(ReplaceChar(ReplaceChar(s, '_', ' '), '.', ' '), '-', ' ')
  }

  /** The identifier with the mail domain cut and the separators spaced out. */
  function CleanedName(identifier: string): string
  {
    SpaceSeparators(CutAtSign(JavaTrim(identifier)))
  }

  /** `split("\\s+")`, except that each whitespace character ends a piece:
      the extra pieces are empty, and the loop skips empty pieces. */
  function NameTokens(identifier: string): seq<string>
  {
    SplitWhere(CleanedName(identifier), IsRegexSpace)
  }

  /** One turn of the display-name loop: the builder after token `t`. */
  function AppendWord(builder: string, t: string): string
  {
    if t == [] then builder
    else if |builder| > 0 then builder + " " + Capitalize(t)
    else builder + Capitalize(t)
  }

  /** The builder after the loop has seen `tokens`. */
  function WordsLine(tokens: seq<string>): string
  {
    if tokens == [] then ""
    else AppendWord(WordsLine(tokens[..|tokens| - 1]), tokens[|tokens| - 1])
  }

  /** `deriveDisplayName`, with the localized fallback name as a parameter. */
  function DisplayName(identifier: Option<string>, fallback: string): (name: string)
    ensures identifier.None? || JavaTrim(identifier.value) == [] ==> name == fallback
    ensures identifier.Some? && JavaTrim(identifier.value) != [] ==> name != []
  {
    if identifier.None? || JavaTrim(identifier.value) == [] then fallback
    else
      var line := WordsLine(NameTokens(identifier.value));
      if line == [] then ToUpper(CleanedName(identifier.value)) else line
  }

  /** `deriveDisplayName`: capitalises the non-empty tokens one by one and
      joins them with single spaces. */
  method DeriveDisplayName(identifier: Option<string>, fallback: string) returns (name: string)
    ensures name == DisplayName(identifier, fallback)
  {
    if identifier.None? {
      return fallback;
    }
    var trimmed := JavaTrim(identifier.value);
    if trimmed == [] {
      return fallback;
    }
    trimmed := CutAtSign(trimmed);
    trimmed := SpaceSeparators(trimmed);
    var tokens := SplitWhere(trimmed, IsRegexSpace);
    var builder := "";
    var i := 0;
    while i < |tokens|
      invariant 0 <= i <= |tokens|
      invariant builder == WordsLine(tokens[..i])
    {
      var token := tokens[i];
      assert tokens[..i + 1][..i] == tokens[..i];
      if token != [] {
        if |builder| > 0 {
          builder := builder + " ";
        }
        builder := builder + Capitalize(token);
      }
      i := i + 1;
    }
    assert tokens[..|tokens|] == tokens;
    if |builder| == 0 {
      return ToUpper(trimmed);
    }
    return builder;
  }

  // ---------------------------------------------------------------- what the display name is

  lemma {:induction false} NonEmptyTokensSnoc(tokens: seq<string>, t: string)
    ensures NonEmptyTokens(tokens + [t]) == NonEmptyTokens(tokens) + (if t != [] then [t] else [])
  {
    assert (tokens + [t])[..|tokens|] == tokens;
  }

  lemma CapitalizedWordsSnoc(tokens: seq<string>, t: string)
    ensures CapitalizedWords(tokens + [t]) == CapitalizedWords(tokens) + (if t != [] then [Capitalize(t)] else [])
  {
    NonEmptyTokensSnoc(tokens, t);
  }

  lemma {:induction false} JoinSnoc(parts: seq<string>, w: string, sep: string)
    ensures Join(parts + [w], sep) == if parts == [] then w else Join(parts, sep) + sep + w
  {
    if |parts| >= 1 {
      assert (parts + [w])[1..] == parts[1..] + [w];
      JoinSnoc(parts[1..], w, sep);
    }
  }

  lemma WordsNonEmpty(tokens: seq<string>)
    ensures forall k :: 0 <= k < |CapitalizedWords(tokens)| ==> CapitalizedWords(tokens)[k] != []
  {
    var words := CapitalizedWords(tokens);
    forall k | 0 <= k < |words| ensures words[k] != [] {
      assert |words[k]| == |NonEmptyTokens(tokens)[k]|;
    }
  }

  /** Joining non-empty words gives the empty string only for no words. */
  lemma JoinEmpty(parts: seq<string>, sep: string)
    requires forall k :: 0 <= k < |parts| ==> parts[k] != []
    ensures Join(parts, sep) == [] <==> parts == []
  {
    if |parts| > 1 {
      assert Join(parts, sep) == parts[0] + sep + Join(parts[1..], sep);
    }
  }

  lemma AppendWordStep(tokens: seq<string>, t: string)
    ensures AppendWord(Join(CapitalizedWords(tokens), " "), t) == Join(CapitalizedWords(tokens + [t]), " ")
  {
    var words := CapitalizedWords(tokens);
    CapitalizedWordsSnoc(tokens, t);
    WordsNonEmpty(tokens);
    JoinEmpty(words, " ");
    var next := CapitalizedWords(tokens + [t]);
    if t != [] {
      var w := Capitalize(t);
      assert next == words + [w];
      JoinSnoc(words, w, " ");
      if words == [] {
        assert Join(words, " ") == [];
        assert Join(next, " ") == w;
        assert AppendWord(Join(words, " "), t) == [] + w;
      } else {
        assert |Join(words, " ")| > 0;
        assert Join(next, " ") == Join(words, " ") + " " + w;
      }
    } else {
      assert next == words;
    }
  }

  /** The loop's builder is the capitalised non-empty tokens joined by single
      spaces. */
  lemma {:induction false} WordsLineIsJoin(tokens: seq<string>)
    ensures WordsLine(tokens) == Join(CapitalizedWords(tokens), " ")
  {
    if tokens != [] {
      var init := tokens[..|tokens| - 1];
      WordsLineIsJoin(init);
      AppendWordStep(init, tokens[|tokens| - 1]);
      assert init + [tokens[|tokens| - 1]] == tokens;
    }
  }

  /** Splitting at the one separator character that no part contains undoes
      `Join`. */
  lemma {:induction false} SplitJoin(parts: seq<string>, c: char)
    requires |parts| >= 1
    requires forall k :: 0 <= k < |parts| ==> c !in parts[k]
    ensures Split(Join(parts, [c]), [c]) == parts
  {
    if |parts| == 1 {
      SplitNoSeparator(parts[0], [c]);
    } else {
      SplitJoin(parts[1..], c);
      SplitSingleChar(parts[0], c, Join(parts[1..], [c]));
    }
  }

  /** A property of characters that survives ASCII case changes and holds of
      every non-separator of `s` holds of every character of the capitalised
      words: they are those characters, lower- or upper-cased. */
  lemma {:induction false} WordCharsKeep(tokens: seq<string>, s: string, isSep: char -> bool, p: char -> bool)
    requires tokens == SplitWhere(s, isSep)
    requires forall j :: 0 <= j < |s| && !isSep(s[j]) ==> p(LowerChar(s[j])) && p(UpperChar(LowerChar(s[j])))
    ensures var words := CapitalizedWords(tokens);
      forall k, i :: 0 <= k < |words| && 0 <= i < |words[k]| ==> p(words[k][i])
  {
    SplitWherePieces(s, isSep);
    var words := CapitalizedWords(tokens);
    var ne := NonEmptyTokens(tokens);
    forall k, i | 0 <= k < |words| && 0 <= i < |words[k]| ensures p(words[k][i]) {
      var m :| 0 <= m < |tokens| && tokens[m] == ne[k];
      assert words[k] == Capitalize(ne[k]);
      var c := ne[k][i];
      assert c in s && !isSep(c);
      var j :| 0 <= j < |s| && s[j] == c;
      assert p(LowerChar(s[j])) && p(UpperChar(LowerChar(s[j])));
    }
  }

  /** When the identifier has a word in it, the display name is those words,
      each capitalised, separated by single spaces: splitting it at ' ' gives
      exactly the capitalised non-empty tokens, in order. */
  lemma {:induction false} DisplayNameWords(identifier: string, fallback: string)
    requires JavaTrim(identifier) != [] && CapitalizedWords(NameTokens(identifier)) != []
    ensures var words := CapitalizedWords(NameTokens(identifier));
      && DisplayName(Some(identifier), fallback) == Join(words, " ")
      && Split(DisplayName(Some(identifier), fallback), " ") == words
  {
    var tokens := NameTokens(identifier);
    var words := CapitalizedWords(tokens);
    WordsLineIsJoin(tokens);
    WordsNonEmpty(tokens);
    JoinEmpty(words, " ");
    WordCharsKeep(tokens, CleanedName(identifier), IsRegexSpace, c => c != ' ');
    SplitJoin(words, ' ');
  }

  lemma {:induction false} JoinKeeps(parts: seq<string>, sep: string, p: char -> bool)
    requires forall k, i :: 0 <= k < |parts| && 0 <= i < |parts[k]| ==> p(parts[k][i])
    requires forall i :: 0 <= i < |sep| ==> p(sep[i])
    ensures forall i :: 0 <= i < |Join(parts, sep)| ==> p(Join(parts, sep)[i])
  {
    if |parts| > 1 {
      JoinKeeps(parts[1..], sep, p);
      var rest := Join(parts[1..], sep);
      var all := Join(parts, sep);
      assert all == parts[0] + sep + rest;
      forall i | 0 <= i < |all| ensures p(all[i]) {
        if i < |parts[0]| {
          assert all[i] == parts[0][i];
        } else if i < |parts[0]| + |sep| {
          assert all[i] == sep[i - |parts[0]|];
        } else {
          assert all[i] == rest[i - |parts[0]| - |sep|];
        }
      }
    }
  }

  /** A character that is not a name separator, and not '@' when `noAt`. */
  predicate IsNameChar(c: char, noAt: bool) {
    !IsNameSeparator(c) && (noAt ==> c != '@')
  }

  /** The cleaned identifier has no separators left, and no '@' when the
      domain was cut. */
  lemma {:induction false} CleanedNameChars(identifier: string, noAt: bool)
    requires noAt ==> IndexOf(JavaTrim(identifier), '@') > 0
    ensures forall j :: 0 <= j < |CleanedName(identifier)| ==> IsNameChar(CleanedName(identifier)[j], noAt)
  {
    var cut := CutAtSign(JavaTrim(identifier));
    var cleaned := SpaceSeparators(cut);
    assert noAt ==> '@' !in cut;
    forall j | 0 <= j < |cleaned| ensures IsNameChar(cleaned[j], noAt) {
      if !IsNameSeparator(cut[j]) {
        assert cleaned[j] == cut[j] && cut[j] in cut;
      }
    }
  }

  /** Every character of a word is a name character. */
  lemma {:induction false} WordsAreNameChars(identifier: string, noAt: bool)
    requires noAt ==> IndexOf(JavaTrim(identifier), '@') > 0
    ensures var words := CapitalizedWords(NameTokens(identifier));
      forall k, i :: 0 <= k < |words| && 0 <= i < |words[k]| ==> IsNameChar(words[k][i], noAt)
  {
    var cleaned := CleanedName(identifier);
    CleanedNameChars(identifier, noAt);
    forall j | 0 <= j < |cleaned|
      ensures IsNameChar(LowerChar(cleaned[j]), noAt) && IsNameChar(UpperChar(LowerChar(cleaned[j])), noAt)
    {
      NameCharCaseStable(cleaned[j], noAt);
    }
    WordCharsKeep(NameTokens(identifier), cleaned, IsRegexSpace, c => IsNameChar(c, noAt));
  }

  /** Changing the ASCII case of a name character gives a name character. */
  lemma NameCharCaseStable(c: char, noAt: bool)
    requires IsNameChar(c, noAt)
    ensures IsNameChar(LowerChar(c), noAt) && IsNameChar(UpperChar(LowerChar(c)), noAt)
  {
  }

  lemma {:induction false} JoinedWordsAreNameChars(identifier: string, noAt: bool)
    requires noAt ==> IndexOf(JavaTrim(identifier), '@') > 0
    ensures var name := Join(CapitalizedWords(NameTokens(identifier)), " ");
      forall i :: 0 <= i < |name| ==> IsNameChar(name[i], noAt)
  {
    WordsAreNameChars(identifier, noAt);
    var p := c => IsNameChar(c, noAt);
    JoinKeeps(CapitalizedWords(NameTokens(identifier)), " ", p);
  }

  /** The mail domain is dropped and '_', '.' and '-' act only as word
      separators: when the identifier yields a word, the display name holds
      none of them, and no '@' when the identifier had one after its first
      character. */
  lemma {:induction false} DisplayNameHasNoSeparators(identifier: string, fallback: string)
    requires JavaTrim(identifier) != [] && CapitalizedWords(NameTokens(identifier)) != []
    ensures var name := DisplayName(Some(identifier), fallback);
      && (forall i :: 0 <= i < |name| ==> !IsNameSeparator(name[i]))
      && (IndexOf(JavaTrim(identifier), '@') > 0 ==> '@' !in name)
  {
    var noAt := IndexOf(JavaTrim(identifier), '@') > 0;
    DisplayNameWords(identifier, fallback);
    JoinedWordsAreNameChars(identifier, noAt);
  }
}
