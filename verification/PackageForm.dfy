/**
 The package metadata form (frontend/src/utils/package-metadata.ts): printing a package into form
 values, reading them back, and the update that saving sends.
 */
module PackageForm {
  import opened Common
  import opened Texts

  datatype Package = Package(
    description: Option<string>, readme: Option<string>, homepage: Option<string>, repositoryUrl: Option<string>,
    license: Option<string>, keywords: Option<seq<string>>, visibility: Option<string>)

  datatype FormValues = FormValues(
    description: string, readme: string, homepage: string, repositoryUrl: string,
    license: string, keywords: string, visibility: string)

  /** A field that is None is not sent; one that is Some(None) is sent as null. */
  datatype Update = Update(
    description: Option<Option<string>>, readme: Option<Option<string>>, homepage: Option<Option<string>>,
    repositoryUrl: Option<Option<string>>, license: Option<Option<string>>,
    keywords: Option<Option<seq<string>>>, visibility: Option<Option<string>>)

  datatype FormError = InvalidVisibility(value: string)

  const NO_UPDATE := Update(None, None, None, None, None, None, None)

  const VISIBILITIES: set<string> := {"public", "private", "internal_org", "unlisted", "quarantined"}

  /** What `trim` and `\s` take for white space. */
  predicate IsWhite(c: char) {
    var n := c as int;
    9 <= n <= 13 || n == 0x20 || n == 0xA0 || n == 0x1680 || 0x2000 <= n <= 0x200A
    || n == 0x2028 || n == 0x2029 || n == 0x202F || n == 0x205F || n == 0x3000 || n == 0xFEFF
  }

  /** Character by character: WhiteSpace and LineTerminator of ECMA-262, sections 12.2 and 12.3. */
  lemma WhiteListed(c: char)
    ensures IsWhite(c) <==> c as int in {
      0x9, 0xA, 0xB, 0xC, 0xD, 0x20, 0xA0, 0x1680, 0x2000, 0x2001, 0x2002, 0x2003, 0x2004, 0x2005, 0x2006, 0x2007,
      0x2008, 0x2009, 0x200A, 0x2028, 0x2029, 0x202F, 0x205F, 0x3000, 0xFEFF}
  {
  }

  const WHITE: CharClass := c => IsWhite(c)

  predicate IsSeparator(c: char) { c == ',' || c == '\n' }

  // ---------------------------------------------------------------- splitting and joining keywords

  function SkipSeparators(s: string): (r: string)
    ensures |r| <= |s|
  {
    if s != "" && IsSeparator(s[0]) then SkipSeparators(s[1..]) else s
  }

  /** Up to the first separator. */
  function Head(s: string): (h: string)
    ensures h <= s
    ensures |h| < |s| ==> IsSeparator(s[|h|])
    ensures forall i :: 0 <= i < |h| ==> !IsSeparator(h[i])
  {
    if s == "" || IsSeparator(s[0]) then "" else [s[0]] + Head(s[1..])
  }

  /** `s.split(/[\n,]+/)` */
  function SplitRuns(s: string): (parts: seq<string>)
    ensures parts != []
    decreases |s|
  {
    var h := Head(s);
    if |h| == |s| then [h] else [h] + SplitRuns(SkipSeparators(s[|h| + 1..]))
  }

  /** `keywords.join(', ')` */
  function Joined(keywords: seq<string>): string {
    if keywords == [] then ""
    else if |keywords| == 1 then keywords[0]
    else keywords[0] + (", " + Joined(keywords[1..]))
  }

  // ---------------------------------------------------------------- normalizing

  function NormalizeText(value: Option<string>): Option<string> {
    if value.Some? && Trim(WHITE, value.value) != "" then Some(Trim(WHITE, value.value)) else None
  }

  function NormalizeReadme(value: Option<string>): Option<string> {
    if value.Some? && Trim(WHITE, value.value) != "" then value else None
  }

  function NoneIfEmpty(keywords: seq<string>): Option<seq<string>> {
    if keywords == [] then None else Some(keywords)
  }

  /** The keywords of a list, each where it is first spelled; `lower` is `toLowerCase`. */
  function KeywordsOf(lower: Spelling, values: seq<string>): Option<seq<string>> {
    NoneIfEmpty(FirstSpellings(WHITE, lower, values))
  }

  lemma NothingSpelled(lower: Spelling)
    ensures FirstSpellings(WHITE, lower, []) == []
  {
  }

  method NormalizeKeywordList(lower: Spelling, keywords: Option<seq<string>>) returns (r: Option<seq<string>>)
    ensures r == if keywords.Some? then KeywordsOf(lower, keywords.value) else None
    ensures r.Some? ==> r.value != [] && Normalized(WHITE, lower, r.value)
  {
    hide FirstSpellings, Trim, Known, Normalized;
    if keywords.None? {
      return None;
    }
    var values := keywords.value;
    FirstSpellingsNormalized(WHITE, lower, values);
    var normalized := [];
    NothingSpelled(lower);
    for i := 0 to |values|
      invariant normalized == FirstSpellings(WHITE, lower, values[..i])
    {
      FirstSpellingsNext(WHITE, lower, values, i);
      var trimmed := Trim(WHITE, values[i]);
      if trimmed == "" {
        continue;
      }
      if Known(lower, normalized, trimmed) {
        continue;
      }
      normalized := normalized + [trimmed];
    }
    assert values[..|values|] == values;
    r := if |normalized| > 0 then Some(normalized) else None;
  }

  method NormalizePackageMetadataKeywords(lower: Spelling, value: string) returns (r: Option<seq<string>>)
    ensures r == KeywordsOf(lower, SplitRuns(value))
    ensures r.Some? ==> r.value != [] && Normalized(WHITE, lower, r.value)
  {
    hide FirstSpellings, Trim, Known, Normalized, SplitRuns;
    var parts := SplitRuns(value);
    FirstSpellingsNormalized(WHITE, lower, parts);
    var normalized := [];
    NothingSpelled(lower);
    for i := 0 to |parts|
      invariant normalized == FirstSpellings(WHITE, lower, parts[..i])
    {
      FirstSpellingsNext(WHITE, lower, parts, i);
      var trimmed := Trim(WHITE, parts[i]);
      if trimmed == "" {
        continue;
      }
      if Known(lower, normalized, trimmed) {
        continue;
      }
      normalized := normalized + [trimmed];
    }
    assert parts[..|parts|] == parts;
    r := if |normalized| > 0 then Some(normalized) else None;
  }

  predicate IsGap(c: char) { WHITE(c) || c == '-' }

  /** `replace(/[\s-]+/g, '_')`; `inGap` says whether the run has its underscore already. */
  function ReplaceGaps(s: string, inGap: bool): string {
    if s == "" then ""
    else if !IsGap(s[0]) then [s[0]] + ReplaceGaps(s[1..], false)
    else (if inGap then "" else "_") + ReplaceGaps(s[1..], true)
  }

  function VisibilityWord(lower: Spelling, value: string): string {
    ReplaceGaps(lower(Trim(WHITE, value)), false)
  }

  function NormalizeStoredVisibility(lower: Spelling, value: Option<string>): Option<string> {
    if value.Some? && VisibilityWord(lower, value.value) in VISIBILITIES then Some(VisibilityWord(lower, value.value)) else None
  }

  function NormalizeVisibilityInput(lower: Spelling, value: string): Result<Option<string>, FormError> {
    var word := VisibilityWord(lower, value);
    if word == "" then Ok(None)
    else if word in VISIBILITIES then Ok(Some(word))
    else Err(InvalidVisibility(value))
  }

  // ---------------------------------------------------------------- the form and the update

  function CreateFormValues(lower: Spelling, pkg: Option<Package>): FormValues {
    if pkg.None? then FormValues("", "", "", "", "", "", "")
    else
      var p := pkg.value;
      FormValues(p.description.GetOr(""), p.readme.GetOr(""), p.homepage.GetOr(""), p.repositoryUrl.GetOr(""),
                 p.license.GetOr(""), if p.keywords.Some? then Joined(p.keywords.value) else "",
                 NormalizeStoredVisibility(lower, p.visibility).GetOr(""))
  }

  /** What is compared with the form: the package as far as the form can express it. */
  function Current(lower: Spelling, pkg: Option<Package>): Package {
    if pkg.None? then Package(None, None, None, None, None, None, None)
    else
      var p := pkg.value;
      Package(NormalizeText(p.description), NormalizeReadme(p.readme), NormalizeText(p.homepage),
              NormalizeText(p.repositoryUrl), NormalizeText(p.license),
              if p.keywords.Some? then KeywordsOf(lower, p.keywords.value) else None,
              NormalizeStoredVisibility(lower, p.visibility))
  }

  /** What the form asks for. */
  function Wanted(lower: Spelling, v: FormValues): Result<Package, FormError> {
    var visibility := NormalizeVisibilityInput(lower, v.visibility);
    if visibility.Err? then Err(visibility.error)
    else Ok(Package(NormalizeText(Some(v.description)), NormalizeReadme(Some(v.readme)), NormalizeText(Some(v.homepage)),
                    NormalizeText(Some(v.repositoryUrl)), NormalizeText(Some(v.license)),
                    KeywordsOf(lower, SplitRuns(v.keywords)), visibility.value))
  }

  method NormalizeCurrentPackageMetadata(lower: Spelling, pkg: Option<Package>) returns (r: Package)
    ensures r == Current(lower, pkg)
  {
    hide Trim, VisibilityWord, FirstSpellings, Normalized;
    var keywords := NormalizeKeywordList(lower, if pkg.Some? then pkg.value.keywords else None);
    if pkg.None? {
      return Package(None, None, None, None, None, None, None);
    }
    var p := pkg.value;
    return Package(NormalizeText(p.description), NormalizeReadme(p.readme), NormalizeText(p.homepage),
                   NormalizeText(p.repositoryUrl), NormalizeText(p.license), keywords,
                   NormalizeStoredVisibility(lower, p.visibility));
  }

  method NormalizePackageMetadataInput(lower: Spelling, v: FormValues) returns (r: Result<Package, FormError>)
    ensures r == Wanted(lower, v)
  {
    hide Trim, VisibilityWord, FirstSpellings, SplitRuns, Normalized;
    var keywords := NormalizePackageMetadataKeywords(lower, v.keywords);
    var visibility := NormalizeVisibilityInput(lower, v.visibility);
    if visibility.Err? {
      return Err(visibility.error);
    }
    return Ok(Package(NormalizeText(Some(v.description)), NormalizeReadme(Some(v.readme)), NormalizeText(Some(v.homepage)),
                      NormalizeText(Some(v.repositoryUrl)), NormalizeText(Some(v.license)), keywords, visibility.value));
  }

  function Changed<T(==)>(current: T, next: T): Option<T> {
    if current != next then Some(next) else None
  }

  /** The update names exactly the fields in which the two differ. */
  function Difference(current: Package, next: Package): Update {
    Update(Changed(current.description, next.description), Changed(current.readme, next.readme),
           Changed(current.homepage, next.homepage), Changed(current.repositoryUrl, next.repositoryUrl),
           Changed(current.license, next.license), Changed(current.keywords, next.keywords),
           Changed(current.visibility, next.visibility))
  }

  /** A blank visibility field asks for no visibility. */
  function Effective(v: FormValues, next: Package): Package {
    if Trim(WHITE, v.visibility) == "" then next.(visibility := None) else next
  }

  function Updates(lower: Spelling, pkg: Option<Package>, v: FormValues): Result<Update, FormError> {
    if Wanted(lower, v).Err? then Err(Wanted(lower, v).error)
    else Ok(Difference(Current(lower, pkg), Effective(v, Wanted(lower, v).value)))
  }

  method BuildPackageMetadataUpdateInput(lower: Spelling, pkg: Option<Package>, v: FormValues) returns (r: Result<Update, FormError>)
    ensures r == Updates(lower, pkg, v)
  {
    hide Trim, VisibilityWord, FirstSpellings, SplitRuns, NormalizeText, NormalizeReadme, NormalizeStoredVisibility, NormalizeVisibilityInput, KeywordsOf, Normalized;
    var current := NormalizeCurrentPackageMetadata(lower, pkg);
    var read := NormalizePackageMetadataInput(lower, v);
    if read.Err? {
      return Err(read.error);
    }
    var next := read.value;
    hide Current, Wanted;
    var input := NO_UPDATE;
    if current.description != next.description {
      input := input.(description := Some(next.description));
    }
    if current.readme != next.readme {
      input := input.(readme := Some(next.readme));
    }
    if current.homepage != next.homepage {
      input := input.(homepage := Some(next.homepage));
    }
    if current.repositoryUrl != next.repositoryUrl {
      input := input.(repositoryUrl := Some(next.repositoryUrl));
    }
    if current.license != next.license {
      input := input.(license := Some(next.license));
    }
    if current.keywords != next.keywords {
      input := input.(keywords := Some(next.keywords));
    }
    if Trim(WHITE, v.visibility) == "" {
      if current.visibility != None {
        input := input.(visibility := Some(None));
      }
    } else if current.visibility != next.visibility {
      input := input.(visibility := Some(next.visibility));
    }
    r := Ok(input);
  }
}
