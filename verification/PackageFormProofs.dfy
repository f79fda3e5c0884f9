/**
 What the package form guarantees (frontend/src/utils/package-metadata.ts): an untouched form changes
 nothing, unless a keyword cannot be written in it, and saving twice is saving once.
 */
module PackageFormProofs {
  import opened Common
  import opened Texts
  import opened PackageForm

  // ---------------------------------------------------------------- words of a text

  /** The trimmed parts that are not blank, which is all that normalizing looks at. */
  function NonBlank(parts: seq<string>): seq<string> {
    if parts == [] then [] else WordOf(parts[0]) + NonBlank(parts[1..])
  }

  function WordOf(part: string): seq<string> {
    if Trim(WHITE, part) == "" then [] else [Trim(WHITE, part)]
  }

  lemma {:induction false} NonBlankConcat(a: seq<string>, b: seq<string>)
    ensures NonBlank(a + b) == NonBlank(a) + NonBlank(b)
  {
    hide WordOf;
    if a == [] {
      assert a + b == b;
    } else {
      assert (a + b)[1..] == a[1..] + b && (a + b)[0] == a[0];
      NonBlankConcat(a[1..], b);
      Associative(WordOf(a[0]), NonBlank(a[1..]), NonBlank(b));
    }
  }

  /** Normalizing sees the words only. */
  lemma {:induction false} SpellingsOfWords(lower: Spelling, values: seq<string>)
    ensures FirstSpellings(WHITE, lower, values) == FirstSpellings(WHITE, lower, NonBlank(values))
  {
    hide Trim, Known, FirstSpellings, NonBlank, Normalized;
    if values == [] {
      NothingBlank();
    } else {
      var n := |values| - 1;
      var init, last := values[..n], Trim(WHITE, values[n]);
      assert values == init + [values[n]];
      SpellingsOfWords(lower, init);
      FirstSpellingsLast(lower, init, values[n]);
      WordsLast(init, values[n]);
      if last != "" {
        TrimTwice(WHITE, values[n]);
        FirstSpellingsLast(lower, NonBlank(init), last);
      }
    }
  }

  lemma WordsLast(init: seq<string>, last: string)
    ensures NonBlank(init + [last]) == if Trim(WHITE, last) == "" then NonBlank(init) else NonBlank(init) + [Trim(WHITE, last)]
  {
    NonBlankConcat(init, [last]);
    NonBlankOne(last);
  }

  lemma NonBlankOne(part: string)
    ensures NonBlank([part]) == if Trim(WHITE, part) == "" then [] else [Trim(WHITE, part)]
  {
  }

  lemma FirstSpellingsLast(lower: Spelling, init: seq<string>, last: string)
    ensures var kept := FirstSpellings(WHITE, lower, init);
            var next := Trim(WHITE, last);
      FirstSpellings(WHITE, lower, init + [last]) == if next == "" || Known(lower, kept, next) then kept else kept + [next]
  {
    var values := init + [last];
    assert values[..|init|] == init && values[..|init| + 1] == values;
    FirstSpellingsNext(WHITE, lower, values, |init|);
  }

  /** Splitting at every separator on its own. */
  function SplitEach(s: string): (parts: seq<string>)
    ensures parts != []
  {
    if s == "" then [""]
    else
      var rest := SplitEach(s[1..]);
      if IsSeparator(s[0]) then [""] + rest else [[s[0]] + rest[0]] + rest[1..]
  }

  lemma {:induction false} SplitEachConcat(a: string, c: char, b: string)
    requires IsSeparator(c)
    ensures SplitEach(a + ([c] + b)) == SplitEach(a) + SplitEach(b)
  {
    var s := a + ([c] + b);
    if a == "" {
      assert s == [c] + b && s[1..] == b;
    } else {
      SplitEachConcat(a[1..], c, b);
      assert s[1..] == a[1..] + ([c] + b) && s[0] == a[0];
      FirstPart(a[0], SplitEach(a[1..]), SplitEach(b));
    }
  }

  lemma FirstPart(c: char, x: seq<string>, y: seq<string>)
    requires x != []
    ensures [[c] + (x + y)[0]] + (x + y)[1..] == ([[c] + x[0]] + x[1..]) + y
    ensures [""] + (x + y) == ([""] + x) + y
  {
  }

  lemma {:induction false} SplitEachNone(s: string)
    requires forall i :: 0 <= i < |s| ==> !IsSeparator(s[i])
    ensures SplitEach(s) == [s]
  {
    if s != "" {
      SplitEachNone(s[1..]);
      assert [s[0]] + s[1..] == s;
    }
  }

  function Words(s: string): seq<string> {
    NonBlank(SplitEach(s))
  }

  lemma NothingBlank()
    ensures NonBlank([""]) == [] && Trim(WHITE, "") == "" && NonBlank([]) == []
  {
    TrimOfTrimmed(WHITE, "");
    NonBlankOne("");
    hide Trim;
  }

  lemma {:induction false} WordsAfterSeparators(s: string)
    ensures Words(SkipSeparators(s)) == Words(s)
  {
    if s != "" && IsSeparator(s[0]) {
      WordsAfterSeparators(s[1..]);
      NothingBlank();
      NonBlankConcat([""], SplitEach(s[1..]));
    }
  }

  /** Splitting at runs gives the same words: between the separators of a run nothing but blanks are lost. */
  lemma {:induction false} RunsDoNotMatter(s: string)
    ensures NonBlank(SplitRuns(s)) == Words(s)
    decreases |s|
  {
    hide NonBlank, SplitEach, Trim;
    var h := Head(s);
    if |h| == |s| {
      assert h == s;
      SplitEachNone(s);
    } else {
      var rest := s[|h| + 1..];
      RunsDoNotMatter(SkipSeparators(rest));
      WordsAfterSeparators(rest);
      assert s == h + ([s[|h|]] + rest);
      WordsConcat(h, s[|h|], rest);
      SplitEachNone(h);
      NonBlankConcat([h], SplitRuns(SkipSeparators(rest)));
    }
  }

  lemma WordsConcat(a: string, c: char, b: string)
    requires IsSeparator(c)
    ensures Words(a + ([c] + b)) == Words(a) + Words(b)
  {
    SplitEachConcat(a, c, b);
    NonBlankConcat(SplitEach(a), SplitEach(b));
  }

  // ---------------------------------------------------------------- words of one keyword

  predicate SeparatorFree(s: string) {
    forall i :: 0 <= i < |s| ==> !IsSeparator(s[i])
  }

  lemma WhiteInFront(c: char, s: string)
    requires WHITE(c)
    ensures Words([c] + s) == Words(s)
  {
    hide NonBlank, Trim, IsWhite;
    assert ([c] + s)[1..] == s;
    NothingBlank();
    var rest := SplitEach(s);
    if IsSeparator(c) {
      NonBlankConcat([""], rest);
    } else {
      TrimDropsLeading(WHITE, c, rest[0]);
      NonBlankConcat([[c] + rest[0]], rest[1..]);
      NonBlankConcat([rest[0]], rest[1..]);
      assert [rest[0]] + rest[1..] == rest;
      NonBlankOne([c] + rest[0]);
      NonBlankOne(rest[0]);
    }
  }

  lemma {:induction false} WhiteHasNoWords(s: string)
    requires forall i :: 0 <= i < |s| ==> WHITE(s[i])
    ensures Words(s) == []
  {
    hide Words, IsWhite;
    if s == "" {
      NoWords();
    } else {
      WhiteHasNoWords(s[1..]);
      WhiteInFront(s[0], s[1..]);
      assert s == [s[0]] + s[1..];
    }
  }

  lemma NoWords()
    ensures Words("") == []
  {
    NothingBlank();
  }

  lemma {:induction false} TrimEndTail(white: CharClass, t: string, w: string)
    requires t != "" && !white(t[|t| - 1]) && forall i :: 0 <= i < |w| ==> white(w[i])
    ensures TrimEnd(white, t + w) == t
    decreases |w|
  {
    var s := t + w;
    if w == "" {
      assert s == t;
    } else {
      TrimEndTail(white, t, w[..|w| - 1]);
      assert s[..|s| - 1] == t + w[..|w| - 1];
      assert s[|s| - 1] == w[|w| - 1];
    }
  }

  lemma TrimTail(t: string, w: string)
    requires t != "" && IsTrimmed(WHITE, t) && forall i :: 0 <= i < |w| ==> WHITE(w[i])
    ensures Trim(WHITE, t + w) == t
  {
    hide IsWhite;
    TrimEndTail(WHITE, t, w);
    assert TrimStart(WHITE, t + w) == t + w;
  }

  lemma WordsOfOne(s: string)
    requires SeparatorFree(s)
    ensures Words(s) == if Trim(WHITE, s) == "" then [] else [Trim(WHITE, s)]
  {
    SplitEachNone(s);
    NonBlankOne(s);
  }

  lemma {:induction false} WordsWithTail(t: string, w: string)
    requires t != "" && IsTrimmed(WHITE, t) && SeparatorFree(t) && forall i :: 0 <= i < |w| ==> WHITE(w[i])
    ensures Words(t + w) == [t]
  {
    hide Words, Trim, IsWhite, IsTrimmed, IsSeparator;
    var h := Head(w);
    TrimTail(t, h);
    WordsOfOne(t + h);
    if |h| == |w| {
      assert h == w;
    } else {
      var rest := w[|h| + 1..];
      assert t + w == (t + h) + ([w[|h|]] + rest);
      WordsConcat(t + h, w[|h|], rest);
      WhiteHasNoWords(rest);
    }
  }

  lemma {:induction false} TrimEndSplits(white: CharClass, s: string) returns (w: string)
    ensures s == TrimEnd(white, s) + w && forall i :: 0 <= i < |w| ==> white(w[i])
  {
    if s != "" && white(s[|s| - 1]) {
      w := TrimEndSplits(white, s[..|s| - 1]);
      w := w + [s[|s| - 1]];
    } else {
      w := "";
    }
  }

  /** A keyword whose trimmed form has no separator reads back as itself, whatever surrounds it. */
  lemma {:induction false} WordsOfKeyword(s: string)
    requires SeparatorFree(Trim(WHITE, s))
    ensures Words(s) == NonBlank([s])
  {
    hide Words, NonBlank, IsWhite, SeparatorFree, Trim;
    NonBlankOne(s);
    if s == "" {
      NoWords();
      NothingBlank();
    } else if WHITE(s[0]) {
      assert s == [s[0]] + s[1..];
      TrimDropsLeading(WHITE, s[0], s[1..]);
      WordsOfKeyword(s[1..]);
      WhiteInFront(s[0], s[1..]);
      NonBlankOne(s[1..]);
    } else {
      var w := TrimmedTail(s);
      WordsWithTail(Trim(WHITE, s), w);
    }
  }

  lemma TrimmedTail(s: string) returns (w: string)
    requires s != "" && !WHITE(s[0])
    ensures var t := Trim(WHITE, s); t != "" && IsTrimmed(WHITE, t) && s == t + w
    ensures forall i :: 0 <= i < |w| ==> WHITE(w[i])
  {
    hide IsWhite, TrimEnd;
    w := TrimEndSplits(WHITE, s);
    TrimEndKeepsStart(WHITE, s);
  }

  predicate Writable(keywords: seq<string>) {
    forall i :: 0 <= i < |keywords| ==> SeparatorFree(Trim(WHITE, keywords[i]))
  }

  lemma {:induction false} WordsOfJoined(keywords: seq<string>)
    requires Writable(keywords)
    ensures Words(Joined(keywords)) == NonBlank(keywords)
  {
    hide Words, IsWhite, SeparatorFree, Trim, NonBlank;
    if keywords == [] {
      NoWords();
      NothingBlank();
    } else {
      WordsOfKeyword(keywords[0]);
      if |keywords| > 1 {
        var rest := keywords[1..];
        WordsOfJoined(rest);
        assert Joined(keywords) == keywords[0] + ([','] + ([' '] + Joined(rest)));
        WordsConcat(keywords[0], ',', [' '] + Joined(rest));
        Blank();
        WhiteInFront(' ', Joined(rest));
        NonBlankConcat([keywords[0]], rest);
        assert [keywords[0]] + rest == keywords;
      } else {
        assert [keywords[0]] == keywords;
      }
    }
  }

  lemma Blank()
    ensures WHITE(' ')
  {
  }

  /** Printing and reading back keeps the normalized keywords. */
  lemma KeywordsComeBack(lower: Spelling, keywords: seq<string>)
    requires Writable(keywords)
    ensures KeywordsOf(lower, SplitRuns(Joined(keywords))) == KeywordsOf(lower, keywords)
  {
    hide Words, NonBlank, FirstSpellings;
    WordsOfJoined(keywords);
    RunsDoNotMatter(Joined(keywords));
    SpellingsOfWords(lower, SplitRuns(Joined(keywords)));
    SpellingsOfWords(lower, keywords);
  }

  // ---------------------------------------------------------------- separators survive nowhere else

  predicate LowerWord(s: string) {
    forall i :: 0 <= i < |s| ==> 'a' <= s[i] <= 'z' || s[i] == '_'
  }

  /** What is assumed of `toLowerCase`: lower-case words stay, and commas and newlines are neither made nor lost. */
  ghost predicate LowersLetters(lower: Spelling) {
    && (forall s :: LowerWord(s) ==> lower(s) == s)
    && (forall a, b :: lower(a) == lower(b) ==> (SeparatorFree(a) <==> SeparatorFree(b)))
  }

  lemma LowersLettersExists()
    ensures exists lower: Spelling :: LowersLetters(lower)
  {
    var lower: Spelling := s => s;
    assert LowersLetters(lower);
  }

  lemma {:induction false} PartsSeparatorFree(s: string)
    ensures forall i :: 0 <= i < |SplitRuns(s)| ==> SeparatorFree(SplitRuns(s)[i])
    decreases |s|
  {
    var h := Head(s);
    if |h| < |s| {
      PartsSeparatorFree(SkipSeparators(s[|h| + 1..]));
    }
  }

  lemma TrimSeparatorFree(s: string)
    requires SeparatorFree(s)
    ensures SeparatorFree(Trim(WHITE, s))
  {
    var t := Trim(WHITE, s);
    forall i | 0 <= i < |t| ensures !IsSeparator(t[i]) {
      assert t[i] in t;
      assert t[i] in s;
    }
  }

  /** A keyword that has a separator inside is never what the form reads. */
  lemma LostKeyword(lower: Spelling, keywords: seq<string>, text: string, i: nat)
    requires LowersLetters(lower) && i < |keywords| && !SeparatorFree(Trim(WHITE, keywords[i]))
    ensures KeywordsOf(lower, SplitRuns(text)) != KeywordsOf(lower, keywords)
  {
    hide Normalized, SeparatorFree, IsSeparator;
    EmptyIsSeparatorFree();
    FirstSpellingsCover(WHITE, lower, keywords, i);
    hide FirstSpellings, Trim;
    var kept := FirstSpellings(WHITE, lower, keywords);
    var j :| 0 <= j < |kept| && lower(kept[j]) == lower(Trim(WHITE, keywords[i]));
    assert !SeparatorFree(kept[j]);
    var read := FirstSpellings(WHITE, lower, SplitRuns(text));
    if j < |read| {
      var k := FirstSpellingsOnly(WHITE, lower, SplitRuns(text), j);
      PartsSeparatorFree(text);
      TrimSeparatorFree(SplitRuns(text)[k]);
      assert read[j] != kept[j];
    }
  }

  lemma EmptyIsSeparatorFree()
    ensures SeparatorFree("")
  {
  }

  // ---------------------------------------------------------------- the other fields

  lemma {:induction false} NoGaps(s: string, inGap: bool)
    requires LowerWord(s)
    ensures ReplaceGaps(s, inGap) == s
  {
    if s != "" {
      NoGaps(s[1..], false);
      assert [s[0]] + s[1..] == s;
    }
  }

  lemma VisibilityIsLowerWord(v: string)
    requires v in VISIBILITIES || v == ""
    ensures LowerWord(v)
  {
  }

  /** The five visibilities, and the empty field, stand for themselves. */
  lemma VisibilityFixed(lower: Spelling, v: string)
    requires LowersLetters(lower) && (v in VISIBILITIES || v == "")
    ensures VisibilityWord(lower, v) == v && Trim(WHITE, v) == v
  {
    VisibilityIsLowerWord(v);
    hide VISIBILITIES;
    TrimOfTrimmed(WHITE, v);
    NoGaps(v, false);
  }

  lemma StoredVisibilityComesBack(lower: Spelling, stored: Option<string>)
    requires LowersLetters(lower)
    ensures var value := NormalizeStoredVisibility(lower, stored);
      && NormalizeVisibilityInput(lower, value.GetOr("")) == Ok(value)
      && (Trim(WHITE, value.GetOr("")) == "" <==> value.None?)
      && (value.Some? ==> NormalizeStoredVisibility(lower, value) == value)
  {
    var value := NormalizeStoredVisibility(lower, stored);
    assert "" !in VISIBILITIES;
    VisibilityFixed(lower, value.GetOr(""));
    hide VisibilityWord, Trim;
  }

  lemma TextComesBack(value: Option<string>)
    ensures NormalizeText(Some(value.GetOr(""))) == NormalizeText(value)
    ensures NormalizeReadme(Some(value.GetOr(""))) == NormalizeReadme(value)
    ensures NormalizeText(NormalizeText(value)) == NormalizeText(value)
    ensures NormalizeReadme(NormalizeReadme(value)) == NormalizeReadme(value)
  {
    NothingBlank();
    if value.Some? {
      TrimTwice(WHITE, value.value);
    }
    hide Trim;
  }

  // ---------------------------------------------------------------- the theorems

  /**
   Saving an untouched form changes nothing, exactly if every keyword, once trimmed, is free of commas
   and newlines.
   */
  lemma UntouchedFormChangesNothing(lower: Spelling, pkg: Option<Package>)
    requires LowersLetters(lower)
    ensures Updates(lower, pkg, CreateFormValues(lower, pkg)) == Ok(NO_UPDATE)
       <==> (pkg.Some? && pkg.value.keywords.Some? ==> Writable(pkg.value.keywords.value))
  {
    hide VisibilityWord, Trim, FirstSpellings, SplitRuns, Joined, NormalizeText, NormalizeReadme,
      NormalizeStoredVisibility, NormalizeVisibilityInput, LowersLetters, SeparatorFree;
    if pkg.None? {
      EmptyForm(lower);
    } else {
      var p := pkg.value;
      TextComesBack(p.description);
      TextComesBack(p.readme);
      TextComesBack(p.homepage);
      TextComesBack(p.repositoryUrl);
      TextComesBack(p.license);
      StoredVisibilityComesBack(lower, p.visibility);
      KeywordsUntouched(lower, p.keywords);
    }
  }

  lemma KeywordsUntouched(lower: Spelling, keywords: Option<seq<string>>)
    requires LowersLetters(lower)
    ensures KeywordsOf(lower, SplitRuns(if keywords.Some? then Joined(keywords.value) else ""))
         == (if keywords.Some? then KeywordsOf(lower, keywords.value) else None)
       <==> (keywords.Some? ==> Writable(keywords.value))
  {
    hide FirstSpellings, SplitRuns, LowersLetters, SeparatorFree, Trim;
    if keywords.None? {
      NoKeywords(lower);
    } else if Writable(keywords.value) {
      KeywordsComeBack(lower, keywords.value);
    } else {
      var i: nat :| i < |keywords.value| && !SeparatorFree(Trim(WHITE, keywords.value[i]));
      LostKeyword(lower, keywords.value, Joined(keywords.value), i);
    }
  }

  lemma NoKeywords(lower: Spelling)
    ensures KeywordsOf(lower, SplitRuns("")) == None
  {
    KeywordsComeBack(lower, []);
    assert Joined([]) == "";
    NothingSpelled(lower);
  }

  lemma EmptyForm(lower: Spelling)
    requires LowersLetters(lower)
    ensures Updates(lower, None, CreateFormValues(lower, None)) == Ok(NO_UPDATE)
  {
    hide VisibilityWord, Trim, FirstSpellings, SplitRuns, NormalizeText, NormalizeReadme, NormalizeVisibilityInput, LowersLetters;
    TextComesBack(None);
    NoTexts();
    NoKeywords(lower);
    StoredVisibilityComesBack(lower, None);
  }

  lemma NoTexts()
    ensures NormalizeText(None) == None && NormalizeReadme(None) == None
  {
  }

  function Replaced<T>(was: T, replacement: Option<T>): T {
    if replacement.Some? then replacement.value else was
  }

  /** The package after an update. */
  function Applied(p: Package, u: Update): Package {
    Package(Replaced(p.description, u.description), Replaced(p.readme, u.readme), Replaced(p.homepage, u.homepage),
            Replaced(p.repositoryUrl, u.repositoryUrl), Replaced(p.license, u.license),
            Replaced(p.keywords, u.keywords), Replaced(p.visibility, u.visibility))
  }

  /** Saving the same form values again changes nothing. */
  lemma SavingTwiceIsSavingOnce(lower: Spelling, p: Package, v: FormValues)
    requires LowersLetters(lower) && Updates(lower, Some(p), v).Ok?
    ensures var u := Updates(lower, Some(p), v).value;
      Updates(lower, Some(Applied(p, u)), v) == Ok(NO_UPDATE)
  {
    hide Current, Wanted, Effective, Applied;
    Settles(lower, p, v);
  }

  /** After the update, the package is as the form wants it. */
  lemma Settles(lower: Spelling, p: Package, v: FormValues)
    requires LowersLetters(lower) && Wanted(lower, v).Ok?
    ensures var next := Effective(v, Wanted(lower, v).value);
      Current(lower, Some(Applied(p, Difference(Current(lower, Some(p)), next)))) == next
  {
    hide Trim, NormalizeText, NormalizeReadme, KeywordsOf, SplitRuns, Changed, Replaced,
      NormalizeStoredVisibility, NormalizeVisibilityInput, LowersLetters;
    TextSettles(p.description, v.description);
    ReadmeSettles(p.readme, v.readme);
    TextSettles(p.homepage, v.homepage);
    TextSettles(p.repositoryUrl, v.repositoryUrl);
    TextSettles(p.license, v.license);
    KeywordsSettle(lower, p.keywords, v.keywords);
    VisibilitySettles(lower, p.visibility, v);
  }

  lemma VisibilitySettles(lower: Spelling, stored: Option<string>, v: FormValues)
    requires LowersLetters(lower) && NormalizeVisibilityInput(lower, v.visibility).Ok?
    ensures var next := if Trim(WHITE, v.visibility) == "" then None else NormalizeVisibilityInput(lower, v.visibility).value;
      NormalizeStoredVisibility(lower, Replaced(stored, Changed(NormalizeStoredVisibility(lower, stored), next))) == next
  {
    WantedVisibilityStays(lower, v);
    hide Trim, NormalizeStoredVisibility, NormalizeVisibilityInput, LowersLetters;
  }

  lemma TextSettles(stored: Option<string>, typed: string)
    ensures var next := NormalizeText(Some(typed));
      NormalizeText(Replaced(stored, Changed(NormalizeText(stored), next))) == next
  {
    TextComesBack(Some(typed));
    hide NormalizeText;
  }

  lemma ReadmeSettles(stored: Option<string>, typed: string)
    ensures var next := NormalizeReadme(Some(typed));
      NormalizeReadme(Replaced(stored, Changed(NormalizeReadme(stored), next))) == next
  {
    TextComesBack(Some(typed));
    hide NormalizeReadme;
  }

  lemma KeywordsSettle(lower: Spelling, stored: Option<seq<string>>, typed: string)
    ensures var current := if stored.Some? then KeywordsOf(lower, stored.value) else None;
            var next := KeywordsOf(lower, SplitRuns(typed));
            var saved := Replaced(stored, Changed(current, next));
      (if saved.Some? then KeywordsOf(lower, saved.value) else None) == next
  {
    NormalizedKeywordsStay(lower, SplitRuns(typed));
    hide KeywordsOf, SplitRuns;
  }

  lemma NormalizedKeywordsStay(lower: Spelling, values: seq<string>)
    ensures var next := KeywordsOf(lower, values);
      next.Some? ==> KeywordsOf(lower, next.value) == next
  {
    FirstSpellingsNormalized(WHITE, lower, values);
    FirstSpellingsOfNormalized(WHITE, lower, FirstSpellings(WHITE, lower, values));
    hide FirstSpellings, Normalized;
  }

  lemma WantedVisibilityStays(lower: Spelling, v: FormValues)
    requires LowersLetters(lower) && NormalizeVisibilityInput(lower, v.visibility).Ok?
    ensures var next := NormalizeVisibilityInput(lower, v.visibility).value;
      NormalizeStoredVisibility(lower, next) == next && NormalizeStoredVisibility(lower, None) == None
  {
    var word := VisibilityWord(lower, v.visibility);
    if word in VISIBILITIES {
      VisibilityFixed(lower, word);
    }
    hide VisibilityWord;
  }

  // ---------------------------------------------------------------- editing one field

  /** What is sent for a text field: the trimmed text if it is new, and null for a blank one. */
  function SentText(was: Option<string>, text: string): Option<Option<string>> {
    var was', asked := Trim(WHITE, was.GetOr("")), Trim(WHITE, text);
    if asked == was' then None else Some(if asked == "" then None else Some(asked))
  }

  /** The readme is sent as it is written, unless it is blank. */
  function SentReadme(was: Option<string>, text: string): Option<Option<string>> {
    var oldBlank, newBlank := Trim(WHITE, was.GetOr("")) == "", Trim(WHITE, text) == "";
    if oldBlank && newBlank then None
    else if newBlank then Some(None)
    else if was == Some(text) then None
    else Some(Some(text))
  }

  lemma SentByDifference(was: Option<string>, text: string)
    ensures Changed(NormalizeText(was), NormalizeText(Some(text))) == SentText(was, text)
    ensures Changed(NormalizeReadme(was), NormalizeReadme(Some(text))) == SentReadme(was, text)
  {
    NothingBlank();
    hide Trim;
  }

  /** The form of a package, untouched, asks for what the package has. */
  lemma UntouchedAsksForCurrent(lower: Spelling, p: Package)
    requires LowersLetters(lower) && (p.keywords.Some? ==> Writable(p.keywords.value))
    ensures var v := CreateFormValues(lower, Some(p));
      Wanted(lower, v) == Ok(Current(lower, Some(p))) && Effective(v, Current(lower, Some(p))) == Current(lower, Some(p))
  {
    hide VisibilityWord, Trim, FirstSpellings, SplitRuns, Joined, NormalizeText, NormalizeReadme,
      NormalizeStoredVisibility, NormalizeVisibilityInput, LowersLetters, SeparatorFree, KeywordsOf;
    TextComesBack(p.description);
    TextComesBack(p.readme);
    TextComesBack(p.homepage);
    TextComesBack(p.repositoryUrl);
    TextComesBack(p.license);
    StoredVisibilityComesBack(lower, p.visibility);
    KeywordsUntouched(lower, p.keywords);
  }

  /**
   Each field of the form is its own: after an edit of one field the update names that field of the package,
   if what is written there differs, and no other.
   */
  lemma EditedFieldSent(lower: Spelling, p: Package, text: string)
    requires LowersLetters(lower) && (p.keywords.Some? ==> Writable(p.keywords.value))
    ensures var v := CreateFormValues(lower, Some(p));
      && Updates(lower, Some(p), v.(description := text)) == Ok(NO_UPDATE.(description := SentText(p.description, text)))
      && Updates(lower, Some(p), v.(readme := text)) == Ok(NO_UPDATE.(readme := SentReadme(p.readme, text)))
      && Updates(lower, Some(p), v.(homepage := text)) == Ok(NO_UPDATE.(homepage := SentText(p.homepage, text)))
      && Updates(lower, Some(p), v.(repositoryUrl := text)) == Ok(NO_UPDATE.(repositoryUrl := SentText(p.repositoryUrl, text)))
      && Updates(lower, Some(p), v.(license := text)) == Ok(NO_UPDATE.(license := SentText(p.license, text)))
  {
    hide VisibilityWord, Trim, FirstSpellings, SplitRuns, Joined, NormalizeText, NormalizeReadme,
      NormalizeStoredVisibility, NormalizeVisibilityInput, LowersLetters, SeparatorFree, KeywordsOf, SentText, SentReadme;
    UntouchedAsksForCurrent(lower, p);
    SentByDifference(p.description, text);
    SentByDifference(p.readme, text);
    SentByDifference(p.homepage, text);
    SentByDifference(p.repositoryUrl, text);
    SentByDifference(p.license, text);
  }

  /** The keywords of the form are the package's, read at commas and newlines. */
  lemma EditedKeywordsSent(lower: Spelling, p: Package, text: string)
    requires LowersLetters(lower) && (p.keywords.Some? ==> Writable(p.keywords.value))
    ensures var v := CreateFormValues(lower, Some(p));
      var was := if p.keywords.Some? then KeywordsOf(lower, p.keywords.value) else None;
      var asked := KeywordsOf(lower, SplitRuns(text));
      Updates(lower, Some(p), v.(keywords := text)) == Ok(NO_UPDATE.(keywords := if asked == was then None else Some(asked)))
  {
    hide VisibilityWord, Trim, FirstSpellings, SplitRuns, Joined, NormalizeText, NormalizeReadme,
      NormalizeStoredVisibility, NormalizeVisibilityInput, LowersLetters, SeparatorFree, KeywordsOf;
    UntouchedAsksForCurrent(lower, p);
  }

  /** A visibility is sent if it is another one, a blank field clears the one there is, and any other word is an error. */
  lemma EditedVisibilitySent(lower: Spelling, p: Package, text: string)
    requires LowersLetters(lower) && (p.keywords.Some? ==> Writable(p.keywords.value))
    ensures var v := CreateFormValues(lower, Some(p)).(visibility := text); var was := NormalizeStoredVisibility(lower, p.visibility);
      && (text in {"public", "private", "internal_org", "unlisted", "quarantined"} ==>
            Updates(lower, Some(p), v) == Ok(NO_UPDATE.(visibility := if was == Some(text) then None else Some(Some(text)))))
      && (text == "" ==> Updates(lower, Some(p), v) == Ok(NO_UPDATE.(visibility := if was == None then None else Some(None))))
      && (VisibilityWord(lower, text) != "" && VisibilityWord(lower, text) !in VISIBILITIES ==>
            Updates(lower, Some(p), v) == Err(InvalidVisibility(text)))
  {
    hide Trim, FirstSpellings, SplitRuns, Joined, NormalizeText, NormalizeReadme,
      NormalizeStoredVisibility, VisibilityWord, LowersLetters, SeparatorFree, KeywordsOf;
    UntouchedAsksForCurrent(lower, p);
    if text in VISIBILITIES || text == "" {
      VisibilityFixed(lower, text);
    }
    assert "" !in VISIBILITIES;
  }

  /** A visibility is trimmed, lowered, and has one underscore for each run of white space and hyphens. */
  lemma GapsAreOneUnderscore(lower: Spelling, text: string, a: string, gap: string, b: string)
    requires lower(Trim(WHITE, text)) == a + (gap + b)
    requires (forall c | c in a :: !IsWhite(c) && c != '-') && gap != "" && (forall c | c in gap :: IsWhite(c) || c == '-')
    requires b != "" && !IsWhite(b[0]) && b[0] != '-'
    ensures VisibilityWord(lower, text) == a + ("_" + ReplaceGaps(b, false))
    ensures (forall c | c in b :: !IsWhite(c) && c != '-') ==> VisibilityWord(lower, text) == a + ("_" + b)
  {
    hide IsWhite, Trim;
    GapReplaced(a, gap, b);
    if forall c | c in b :: !IsWhite(c) && c != '-' {
      NothingReplaced(b, false);
    }
  }

  lemma {:induction false} NothingReplaced(s: string, inGap: bool)
    requires forall c | c in s :: !IsGap(c)
    ensures ReplaceGaps(s, inGap) == s
  {
    if s != "" {
      NothingReplaced(s[1..], false);
      assert [s[0]] + s[1..] == s;
    }
  }

  lemma {:induction false} GapReplaced(a: string, gap: string, b: string)
    requires (forall c | c in a :: !IsGap(c)) && gap != "" && (forall c | c in gap :: IsGap(c)) && b != "" && !IsGap(b[0])
    ensures ReplaceGaps(a + (gap + b), false) == a + ("_" + ReplaceGaps(b, false))
    decreases |a|
  {
    var s := a + (gap + b);
    if a != "" {
      assert s[1..] == a[1..] + (gap + b) && a == [a[0]] + a[1..];
      GapReplaced(a[1..], gap, b);
    } else {
      assert s == gap + b && s[1..] == gap[1..] + b;
      RestOfGap(gap[1..], b);
    }
  }

  lemma {:induction false} RestOfGap(gap: string, b: string)
    requires (forall c | c in gap :: IsGap(c)) && b != "" && !IsGap(b[0])
    ensures ReplaceGaps(gap + b, true) == ReplaceGaps(b, false)
  {
    if gap != "" {
      assert (gap + b)[1..] == gap[1..] + b;
      RestOfGap(gap[1..], b);
    } else {
      assert gap + b == b;
    }
  }

  /** Commas and newlines, and nothing else, are what the keyword field is split at. */
  lemma SplitAtCommaOrNewline(a: string, b: string)
    requires ',' !in a && '\n' !in a && ',' !in b && '\n' !in b
    ensures SplitRuns(a + ("," + b)) == [a, b] && SplitRuns(a + ("\n" + b)) == [a, b] && SplitRuns(a) == [a]
  {
    HeadOf(a, ',', b);
    HeadOf(a, '\n', b);
    WholeHead(a);
    WholeHead(b);
    assert (a + ("," + b))[|a| + 1..] == b && (a + ("\n" + b))[|a| + 1..] == b;
    assert SkipSeparators(b) == b;
  }

  lemma {:induction false} HeadOf(a: string, c: char, b: string)
    requires (c == ',' || c == '\n') && ',' !in a && '\n' !in a
    ensures Head(a + ([c] + b)) == a
  {
    if a == "" {
      assert a + ([c] + b) == [c] + b;
    } else {
      assert (a + ([c] + b))[1..] == a[1..] + ([c] + b);
      HeadOf(a[1..], c, b);
      assert [a[0]] + a[1..] == a;
    }
  }

  lemma {:induction false} WholeHead(a: string)
    requires ',' !in a && '\n' !in a
    ensures Head(a) == a
  {
    if a != "" {
      WholeHead(a[1..]);
      assert [a[0]] + a[1..] == a;
    }
  }
}
