/**
 * String and file name sanitizing as chains of single-pass rewrites, and which strings they leave alone.
 * A string is what it is in JavaScript, a sequence of UTF-16 code units; NFKC normalization is a parameter.
 */
module Sanitizer {
  import opened Prelude

  type CodeUnit = n: int | 0 <= n < 0x10000

  type Text = seq<CodeUnit>

  const LESS: CodeUnit := 0x3C
  const GREATER: CodeUnit := 0x3E
  const DOT: CodeUnit := 0x2E
  const SLASH: CodeUnit := 0x2F
  const BACKSLASH: CodeUnit := 0x5C
  const UNDERSCORE: CodeUnit := 0x5F
  const HYPHEN: CodeUnit := 0x2D
  const SPACE: CodeUnit := 0x20

  /** `maxLength` is None when it is absent, negative or not an integer. */
  datatype Options = Options(trim: bool, removeHtml: bool, removeControlCharacters: bool, maxLength: Option<nat>)

  predicate IsControl(n: CodeUnit) {
    n <= 0x08 || n == 0x0B || n == 0x0C || 0x0E <= n <= 0x1F || n == 0x7F
  }

  predicate IsBidiOverride(n: CodeUnit) {
    0x202A <= n <= 0x202E || 0x2066 <= n <= 0x2069
  }

  /** White space and line terminators, as String.prototype.trim sees them. */
  predicate IsWhite(n: CodeUnit) {
    || 0x09 <= n <= 0x0D || n == 0x20 || n == 0xA0 || n == 0x1680 || 0x2000 <= n <= 0x200A
    || n == 0x2028 || n == 0x2029 || n == 0x202F || n == 0x205F || n == 0x3000 || n == 0xFEFF
  }

  function Remove(s: Text, unwanted: CodeUnit -> bool): Text {
    if s == [] then []
    else if unwanted(s[0]) then Remove(s[1..], unwanted)
    else [s[0]] + Remove(s[1..], unwanted)
  }

  /** What follows the first '>', if there is one. */
  function AfterTagEnd(s: Text): (rest: Option<Text>)
    ensures rest.Some? ==> |rest.value| < |s|
  {
    if s == [] then None else if s[0] == GREATER then Some(s[1..]) else AfterTagEnd(s[1..])
  }

  /** One pass of /<[^>]*>/g: from each '<', everything up to the next '>' goes. */
  function RemoveTags(s: Text): Text
    decreases |s|
  {
    if s == [] then []
    else if s[0] == LESS && AfterTagEnd(s[1..]).Some? then RemoveTags(AfterTagEnd(s[1..]).value)
    else [s[0]] + RemoveTags(s[1..])
  }

  function TrimStart(s: Text): Text {
    if s != [] && IsWhite(s[0]) then TrimStart(s[1..]) else s
  }

  function TrimEnd(s: Text): Text {
    if s != [] && IsWhite(s[|s| - 1]) then TrimEnd(s[..|s| - 1]) else s
  }

  function Trim(s: Text): Text {
    TrimEnd(TrimStart(s))
  }

  /** slice(0, n) */
  function Cut(s: Text, n: Option<nat>): Text {
    if n.Some? && n.value < |s| then s[..n.value] else s
  }

  function Uncut(value: Text, o: Options): Text {
    var s1 := if o.removeControlCharacters then Remove(Remove(value, IsControl), IsBidiOverride) else value;
    var s2 := if o.removeHtml then RemoveTags(s1) else s1;
    if o.trim then Trim(s2) else s2
  }

  /** sanitizeString with normalize: false */
  function SanitizeString(value: Text, o: Options): Text {
    Cut(Uncut(value, o), o.maxLength)
  }

  // ----- what each pass leaves, and what it leaves alone -----

  ghost predicate Free(s: Text, unwanted: CodeUnit -> bool) {
    forall i | 0 <= i < |s| :: !unwanted(s[i])
  }

  ghost predicate NoTag(s: Text) {
    forall i, j | 0 <= i < j < |s| :: !(s[i] == LESS && s[j] == GREATER)
  }

  ghost predicate Trimmed(s: Text) {
    s == [] || (!IsWhite(s[0]) && !IsWhite(s[|s| - 1]))
  }

  /** Everything in t comes from s. */
  ghost predicate From(t: Text, s: Text) {
    |t| <= |s| && forall c | c in t :: c in s
  }

  lemma {:induction false} RemoveResult(s: Text, unwanted: CodeUnit -> bool)
    ensures var t := Remove(s, unwanted);
      Free(t, unwanted) && From(t, s) && (t == s <==> Free(s, unwanted)) && (|t| == |s| ==> t == s)
  {
    if s != [] {
      RemoveResult(s[1..], unwanted);
      assert s == [s[0]] + s[1..];
    }
  }

  /** Removal goes unit by unit: every wanted unit stays, in its place among the others. */
  lemma {:induction false} RemoveStep(before: Text, c: CodeUnit, after: Text, unwanted: CodeUnit -> bool)
    ensures Remove([], unwanted) == []
    ensures Remove(before + [c] + after, unwanted)
         == Remove(before, unwanted) + (if unwanted(c) then [] else [c]) + Remove(after, unwanted)
  {
    var s := before + [c] + after;
    if before == [] {
      assert s[0] == c && s[1..] == after;
    } else {
      assert s[0] == before[0] && s[1..] == before[1..] + [c] + after;
      RemoveStep(before[1..], c, after, unwanted);
    }
  }

  /** What trimming takes for white space: tab to carriage return, the space separators of Unicode, its line and paragraph separators, and U+FEFF. */
  lemma {:induction false} UnitsTrimmed(n: CodeUnit)
    ensures IsWhite(n) <==>
      n in {0x09, 0x0A, 0x0B, 0x0C, 0x0D, 0x20, 0xA0, 0x1680, 0x2000, 0x2001, 0x2002, 0x2003, 0x2004, 0x2005, 0x2006, 0x2007,
            0x2008, 0x2009, 0x200A, 0x2028, 0x2029, 0x202F, 0x205F, 0x3000, 0xFEFF}
  {
  }

  /**
   * The units removed are all below space but tab, line feed and carriage return, and delete, and the nine bidirectional
   * overrides and isolates; those a file name keeps are letters, digits, dot, underscore, space and hyphen of ASCII.
   */
  lemma {:induction false} UnitsRemoved(n: CodeUnit)
    ensures IsControl(n) <==> (n < SPACE && n !in {9, 10, 13}) || n == 127
    ensures IsBidiOverride(n) <==> n in {0x202A, 0x202B, 0x202C, 0x202D, 0x202E, 0x2066, 0x2067, 0x2068, 0x2069}
    ensures IsFilenameChar(n) <==>
      n < 128 && var c := n as char;
                 'A' <= c <= 'Z' || 'a' <= c <= 'z' || '0' <= c <= '9' || c == '.' || c == '_' || c == ' ' || c == '-'
  {
  }

  lemma {:induction false} AfterTagEndResult(s: Text)
    ensures AfterTagEnd(s).None? <==> GREATER !in s
    ensures AfterTagEnd(s).Some? ==> From(AfterTagEnd(s).value, s)
  {
    if s != [] {
      assert s == [s[0]] + s[1..];
      AfterTagEndResult(s[1..]);
    }
  }

  lemma {:induction false} RemoveTagsResult(s: Text)
    ensures NoTag(RemoveTags(s)) && From(RemoveTags(s), s)
    decreases |s|
  {
    if s != [] {
      assert s == [s[0]] + s[1..];
      AfterTagEndResult(s[1..]);
      if s[0] == LESS && AfterTagEnd(s[1..]).Some? {
        RemoveTagsResult(AfterTagEnd(s[1..]).value);
      } else {
        RemoveTagsResult(s[1..]);
        var t := RemoveTags(s[1..]);
        assert forall j | 0 <= j < |t| :: t[j] in t;
      }
    }
  }

  /** The pass is undone by nothing and does nothing exactly on strings without a complete tag. */
  lemma {:induction false} RemoveTagsFixpoint(s: Text)
    ensures RemoveTags(s) == s <==> NoTag(s)
    ensures |RemoveTags(s)| == |s| ==> NoTag(s)
    decreases |s|
  {
    RemoveTagsResult(s);
    if s != [] {
      var rest := s[1..];
      assert s == [s[0]] + rest;
      AfterTagEndResult(rest);
      if s[0] == LESS && AfterTagEnd(rest).Some? {
        RemoveTagsResult(AfterTagEnd(rest).value);
        var j :| 0 <= j < |rest| && rest[j] == GREATER;
        assert s[0] == LESS && s[j + 1] == GREATER;
      } else {
        RemoveTagsFixpoint(rest);
        if NoTag(s) {
          forall i, j | 0 <= i < j < |rest| ensures !(rest[i] == LESS && rest[j] == GREATER) {
            assert rest[i] == s[i + 1] && rest[j] == s[j + 1];
          }
        } else {
          var i, j :| 0 <= i < j < |s| && s[i] == LESS && s[j] == GREATER;
          assert rest[j - 1] == GREATER;
          assert i > 0;
          assert rest[i - 1] == LESS;
        }
      }
    }
  }

  lemma {:induction false} PlainUnitStays(c: CodeUnit, rest: Text)
    requires c != LESS
    ensures RemoveTags([c] + rest) == [c] + RemoveTags(rest)
  {
    assert ([c] + rest)[1..] == rest;
  }

  /** The pass is the regular expression's: text without '<' stays, a tag goes, and the rest is scanned afresh. */
  lemma {:induction false} RemoveTagsStep(before: Text, body: Text, after: Text)
    requires LESS !in before && GREATER !in body
    ensures RemoveTags(before + [LESS] + body + [GREATER] + after) == before + RemoveTags(after)
  {
    var s := before + [LESS] + body + [GREATER] + after;
    if before == [] {
      assert s[1..] == body + [GREATER] + after;
      TagEndsAt(body, after);
    } else {
      RemoveTagsStep(before[1..], body, after);
      assert before[0] in before;
      assert s == [before[0]] + (before[1..] + [LESS] + body + [GREATER] + after);
      PlainUnitStays(before[0], before[1..] + [LESS] + body + [GREATER] + after);
      assert before == [before[0]] + before[1..];
    }
  }

  lemma {:induction false} TagEndsAt(body: Text, after: Text)
    requires GREATER !in body
    ensures AfterTagEnd(body + [GREATER] + after) == Some(after)
  {
    var s := body + [GREATER] + after;
    if body == [] {
      assert s[1..] == after;
    } else {
      assert body[0] in body;
      assert s[1..] == body[1..] + [GREATER] + after;
      TagEndsAt(body[1..], after);
    }
  }

  lemma {:induction false} TrimStartResult(s: Text) returns (k: nat)
    ensures k <= |s| && TrimStart(s) == s[k..] && forall i | 0 <= i < k :: IsWhite(s[i])
    ensures k < |s| ==> !IsWhite(s[k])
    ensures k > 0 ==> IsWhite(s[0])
  {
    if s != [] && IsWhite(s[0]) {
      var j := TrimStartResult(s[1..]);
      k := j + 1;
      assert forall i | 1 <= i < k :: s[i] == s[1..][i - 1];
    } else {
      k := 0;
    }
  }

  lemma {:induction false} TrimEndResult(s: Text) returns (k: nat)
    ensures k <= |s| && TrimEnd(s) == s[..k] && forall i | k <= i < |s| :: IsWhite(s[i])
    ensures k > 0 ==> !IsWhite(s[k - 1])
    ensures k < |s| ==> IsWhite(s[|s| - 1])
  {
    if s != [] && IsWhite(s[|s| - 1]) {
      k := TrimEndResult(s[..|s| - 1]);
      assert s[..|s| - 1][..k] == s[..k];
    } else {
      k := |s|;
    }
  }

  /** Trimming takes a slice, drops nothing but white space, and only a trimmed string keeps its length. */
  lemma TrimResult(s: Text) returns (a: nat, b: nat)
    ensures a <= b <= |s| && Trim(s) == s[a..b] && Trimmed(Trim(s)) && (Trim(s) == s <==> Trimmed(s))
    ensures forall i | 0 <= i < |s| && !(a <= i < b) :: IsWhite(s[i])
    ensures |Trim(s)| == |s| ==> Trimmed(s)
  {
    a := TrimStartResult(s);
    var k := TrimEndResult(s[a..]);
    b := a + k;
    assert s[a..][..k] == s[a..b];
    if a == 0 { assert s[0..] == s; }
    if a == |s| { assert s[a..] == []; }
  }

  // ----- sanitizeString -----

  /** The strings that sanitizing leaves alone. */
  ghost predicate Clean(s: Text, o: Options) {
    && (o.removeControlCharacters ==> Free(s, IsControl) && Free(s, IsBidiOverride))
    && (o.removeHtml ==> NoTag(s))
    && (o.trim ==> Trimmed(s))
    && (o.maxLength.Some? ==> |s| <= o.maxLength.value)
  }

  lemma FreeOfFrom(t: Text, s: Text, unwanted: CodeUnit -> bool)
    requires From(t, s) && Free(s, unwanted)
    ensures Free(t, unwanted)
  {
    forall i | 0 <= i < |t| ensures !unwanted(t[i]) { assert t[i] in s; }
  }

  /** A slice of a string without control characters or tags has none either. */
  lemma {:induction false} SliceStaysClean(s: Text, a: nat, b: nat)
    requires a <= b <= |s|
    ensures From(s[a..b], s)
    ensures NoTag(s) ==> NoTag(s[a..b])
  {
    var t := s[a..b];
    forall i, j | 0 <= i < j < |t| && NoTag(s) ensures !(t[i] == LESS && t[j] == GREATER) {
      assert t[i] == s[a + i] && t[j] == s[a + j];
    }
  }

  lemma UncutResult(value: Text, o: Options)
    ensures Clean(Uncut(value, o), o.(maxLength := None)) && |Uncut(value, o)| <= |value|
    ensures |Uncut(value, o)| == |value| ==> Clean(value, o.(maxLength := None))
    ensures Clean(value, o.(maxLength := None)) ==> Uncut(value, o) == value
  {
    var s0 := Remove(value, IsControl);
    RemoveResult(value, IsControl);
    RemoveResult(s0, IsBidiOverride);
    var s1 := if o.removeControlCharacters then Remove(s0, IsBidiOverride) else value;
    if o.removeControlCharacters { FreeOfFrom(s1, s0, IsControl); }
    RemoveTagsResult(s1);
    RemoveTagsFixpoint(s1);
    var s2 := if o.removeHtml then RemoveTags(s1) else s1;
    var a, b := TrimResult(s2);
    SliceStaysClean(s2, a, b);
    if o.removeControlCharacters {
      FreeOfFrom(s2, s1, IsControl);
      FreeOfFrom(s2, s1, IsBidiOverride);
      FreeOfFrom(s2[a..b], s2, IsControl);
      FreeOfFrom(s2[a..b], s2, IsBidiOverride);
    }
  }

  /** Sanitizing leaves a string alone exactly when it is clean. */
  lemma SanitizeFixpoint(value: Text, o: Options)
    ensures SanitizeString(value, o) == value <==> Clean(value, o)
  {
    UncutResult(value, o);
  }

  /** Without a maximal length, one pass is enough. */
  lemma SanitizeIsIdempotent(value: Text, o: Options)
    requires o.maxLength.None?
    ensures SanitizeString(SanitizeString(value, o), o) == SanitizeString(value, o)
  {
    UncutResult(value, o);
    SanitizeFixpoint(SanitizeString(value, o), o);
  }

  /** With one, a second pass changes the result exactly when the cut falls right after a white character. */
  lemma {:induction false} SanitizeWithLimit(value: Text, o: Options)
    requires o.maxLength.Some?
    ensures var n, t := o.maxLength.value, Uncut(value, o);
      SanitizeString(SanitizeString(value, o), o) == SanitizeString(value, o)
      <==> !(o.trim && 0 < n < |t| && IsWhite(t[n - 1]))
  {
    var n, t := o.maxLength.value, Uncut(value, o);
    var r := SanitizeString(value, o);
    UncutResult(value, o);
    SanitizeFixpoint(r, o);
    if n < |t| { CutIsCleanIff(t, n, o); }
  }

  /** A cut leaves a clean string clean, except that it may end in white space. */
  lemma {:induction false} CutIsCleanIff(t: Text, n: nat, o: Options)
    requires n < |t| && Clean(t, o.(maxLength := None))
    ensures Clean(t[..n], o.(maxLength := Some(n))) <==> !(o.trim && 0 < n && IsWhite(t[n - 1]))
  {
    SliceStaysClean(t, 0, n);
    assert t[0..n] == t[..n];
    if o.removeControlCharacters {
      FreeOfFrom(t[..n], t, IsControl);
      FreeOfFrom(t[..n], t, IsBidiOverride);
    }
  }

  const A_SPACE_B: Text := [0x61, SPACE, 0x62]
  const A_SPACE: Text := [0x61, SPACE]
  const UP_TO_2 := Options(true, true, true, Some(2))

  /** "a b" with a limit of 2: the first pass leaves a space at the end, and the second takes it off. */
  lemma {:induction false} SecondPassTrimsMore()
    ensures SanitizeString(A_SPACE_B, UP_TO_2) == A_SPACE
    ensures SanitizeString(SanitizeString(A_SPACE_B, UP_TO_2), UP_TO_2) == [0x61]
  {
    FirstPass();
    SecondPass();
  }

  lemma {:induction false} FirstPass()
    ensures SanitizeString(A_SPACE_B, UP_TO_2) == A_SPACE
  {
    UncutResult(A_SPACE_B, UP_TO_2);
    assert A_SPACE_B[..2] == A_SPACE;
  }

  lemma {:induction false} SecondPass()
    ensures SanitizeString(A_SPACE, UP_TO_2) == [0x61]
  {
    UncutResult(A_SPACE, UP_TO_2.(trim := false));
    assert Uncut(A_SPACE, UP_TO_2) == Trim(A_SPACE);
    assert TrimStart(A_SPACE) == A_SPACE;
    assert A_SPACE[..1] == [0x61] && TrimEnd([0x61]) == [0x61];
  }

  // ----- sanitizeFilename -----

  const FILENAME_MAX := 180
  const FILENAME_OPTIONS := Options(true, true, true, None)

  predicate IsFilenameChar(n: CodeUnit) {
    || 0x41 <= n <= 0x5A || 0x61 <= n <= 0x7A || 0x30 <= n <= 0x39 // A-Z, a-z, 0-9
    || n == DOT || n == UNDERSCORE || n == SPACE || n == HYPHEN
  }

  predicate NotFilenameChar(n: CodeUnit) {
    !IsFilenameChar(n)
  }

  predicate IsSeparator(n: CodeUnit) {
    n == BACKSLASH || n == SLASH
  }

  /** s.replace(/[...]/g, '_') */
  function Underscore(s: Text, unwanted: CodeUnit -> bool): (t: Text)
    ensures |t| == |s|
    ensures forall i | 0 <= i < |s| :: t[i] == if unwanted(s[i]) then UNDERSCORE else s[i]
  {
    seq(|s|, i requires 0 <= i < |s| => if unwanted(s[i]) then UNDERSCORE else s[i])
  }

  /** s.replace(/\.\.+/g, '.') */
  function CollapseDots(s: Text): Text {
    if |s| < 2 then s
    else if s[0] == DOT && s[1] == DOT then CollapseDots(s[1..])
    else [s[0]] + CollapseDots(s[1..])
  }

  function SanitizeFilename(filename: Text, nfkc: Text -> Text): Text {
    var s := SanitizeString(nfkc(filename), FILENAME_OPTIONS);
    var flat := Underscore(s, IsSeparator);
    Cut(Underscore(CollapseDots(flat), NotFilenameChar), Some(FILENAME_MAX))
  }

  ghost predicate NoDoubleDot(s: Text) {
    forall i | 0 <= i < |s| - 1 :: !(s[i] == DOT && s[i + 1] == DOT)
  }

  ghost predicate SafeName(s: Text) {
    Free(s, NotFilenameChar) && NoDoubleDot(s) && |s| <= FILENAME_MAX
  }

  /** Every other unit stays, in its place, and each unbroken row of dots becomes one. */
  lemma {:induction false} CollapseDotsStep(before: Text, c: CodeUnit, after: Text)
    requires c != DOT
    ensures CollapseDots(before + [c] + after) == CollapseDots(before) + [c] + CollapseDots(after)
  {
    var s := before + [c] + after;
    if before == [] {
      assert s[0] == c && s[1..] == after;
    } else {
      assert s[0] == before[0] && s[1..] == before[1..] + [c] + after;
      CollapseDotsStep(before[1..], c, after);
      assert |before| > 1 ==> s[1] == before[1];
      assert |before| == 1 ==> before[1..] == [];
    }
  }

  lemma {:induction false} DotsBecomeOne(dots: Text)
    requires forall i | 0 <= i < |dots| :: dots[i] == DOT
    ensures CollapseDots(dots) == if dots == [] then [] else [DOT]
  {
    if |dots| > 1 { DotsBecomeOne(dots[1..]); }
  }

  lemma {:induction false} CollapseDotsResult(s: Text)
    ensures var t := CollapseDots(s);
      && NoDoubleDot(t) && |t| <= |s| && (s != [] ==> t != [] && t[0] == s[0]) && (t == s <==> NoDoubleDot(s))
  {
    if |s| >= 2 {
      CollapseDotsResult(s[1..]);
      var t := CollapseDots(s[1..]);
      assert s == [s[0]] + s[1..];
      if !(s[0] == DOT && s[1] == DOT) {
        assert forall i | 0 < i < |s| - 1 :: s[i] == s[1..][i - 1] && s[i + 1] == s[1..][i];
        if NoDoubleDot(s[1..]) { assert NoDoubleDot(s); }
      }
    }
  }

  /** A sanitized file name has no separator, no two adjacent dots, and only harmless characters. */
  lemma FilenameIsSafe(filename: Text, nfkc: Text -> Text)
    ensures SafeName(SanitizeFilename(filename, nfkc))
    ensures SLASH !in SanitizeFilename(filename, nfkc) && BACKSLASH !in SanitizeFilename(filename, nfkc)
    ensures |SanitizeFilename(filename, nfkc)| <= 180
  {
    NameFromFlat(Underscore(SanitizeString(nfkc(filename), FILENAME_OPTIONS), IsSeparator));
  }

  /** The rest of the passes make a safe name of anything. */
  lemma NameFromFlat(flat: Text)
    ensures SafeName(Cut(Underscore(CollapseDots(flat), NotFilenameChar), Some(FILENAME_MAX)))
  {
    CollapseDotsResult(flat);
    var t := Underscore(CollapseDots(flat), NotFilenameChar);
    assert NoDoubleDot(t) && Free(t, NotFilenameChar);
  }

  lemma {:induction false} SafeTrimmedNamesAreClean(s: Text)
    requires SafeName(s) && Trimmed(s)
    ensures Clean(s, FILENAME_OPTIONS)
  {
    forall i | 0 <= i < |s| ensures !IsControl(s[i]) && !IsBidiOverride(s[i]) && s[i] != LESS {
      assert !NotFilenameChar(s[i]);
    }
  }

  lemma {:induction false} SafeNamesStay(s: Text)
    requires SafeName(s)
    ensures Underscore(s, IsSeparator) == s && CollapseDots(s) == s && Underscore(s, NotFilenameChar) == s
  {
    forall i | 0 <= i < |s| ensures !IsSeparator(s[i]) {
      assert !NotFilenameChar(s[i]);
    }
    CollapseDotsResult(s);
  }

  /** A sanitized name is sanitized for good exactly when it is trimmed: the cut at 180 can leave a space at its end. */
  lemma FilenameIsIdempotentIff(filename: Text, nfkc: Text -> Text)
    requires forall s | SafeName(s) :: nfkc(s) == s
    ensures var r := SanitizeFilename(filename, nfkc); SanitizeFilename(r, nfkc) == r <==> Trimmed(r)
  {
    FilenameIsSafe(filename, nfkc);
    FilenameFixpoint(SanitizeFilename(filename, nfkc), nfkc);
  }

  /** A name that normalization does not touch is kept exactly when it is safe and trimmed. */
  lemma FilenameFixpoint(filename: Text, nfkc: Text -> Text)
    requires nfkc(filename) == filename
    ensures SanitizeFilename(filename, nfkc) == filename <==> SafeName(filename) && Trimmed(filename)
  {
    UncutResult(filename, FILENAME_OPTIONS);
    if SafeName(filename) && Trimmed(filename) {
      SafeTrimmedNamesAreClean(filename);
      SafeNamesStay(filename);
    } else {
      FilenameIsSafe(filename, nfkc);
      CollapseDotsResult(Underscore(SanitizeString(filename, FILENAME_OPTIONS), IsSeparator));
    }
  }
}
