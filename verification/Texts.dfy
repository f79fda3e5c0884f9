/**
 String handling shared by the Maven POM reader and the package form: trimming, and lists that keep
 the first spelling of every entry.  What counts as white space and when two spellings are the same
 differs between the two, so both are parameters.
 */
module Texts {

  type CharClass = char -> bool

  // ---------------------------------------------------------------- trimming

  function TrimStart(white: CharClass, s: string): (r: string)
    ensures r != "" ==> !white(r[0])
    ensures |r| <= |s| && r == s[|s| - |r|..]
  {
    if s != "" && white(s[0]) then TrimStart(white, s[1..]) else s
  }

  function TrimEnd(white: CharClass, s: string): (r: string)
    ensures r != "" ==> !white(r[|r| - 1])
    ensures r <= s
  {
    if s != "" && white(s[|s| - 1]) then TrimEnd(white, s[..|s| - 1]) else s
  }

  function Trim(white: CharClass, s: string): (r: string)
    ensures r != "" ==> !white(r[0]) && !white(r[|r| - 1])
    ensures forall c :: c in r ==> c in s
  {
    TrimEnd(white, TrimStart(white, s))
  }

  predicate IsTrimmed(white: CharClass, s: string) {
    s != "" ==> !white(s[0]) && !white(s[|s| - 1])
  }

  lemma TrimOfTrimmed(white: CharClass, s: string)
    requires IsTrimmed(white, s)
    ensures Trim(white, s) == s
  {
  }

  lemma TrimTwice(white: CharClass, s: string)
    ensures Trim(white, Trim(white, s)) == Trim(white, s)
  {
    TrimOfTrimmed(white, Trim(white, s));
  }

  lemma {:induction false} TrimDropsLeading(white: CharClass, c: char, s: string)
    requires white(c)
    ensures Trim(white, [c] + s) == Trim(white, s)
  {
    assert ([c] + s)[1..] == s;
  }

  lemma {:induction false} TrimBlank(white: CharClass, s: string)
    ensures Trim(white, s) == "" <==> forall i :: 0 <= i < |s| ==> white(s[i])
  {
    if s != "" {
      if white(s[0]) {
        TrimBlank(white, s[1..]);
        assert forall i :: 0 <= i < |s[1..]| ==> s[1..][i] == s[i + 1];
      } else {
        TrimEndKeepsStart(white, s);
      }
    }
  }

  lemma {:induction false} TrimEndKeepsStart(white: CharClass, s: string)
    requires s != "" && !white(s[0])
    ensures TrimEnd(white, s) != ""
  {
    if white(s[|s| - 1]) {
      TrimEndKeepsStart(white, s[..|s| - 1]);
    }
  }

  // ---------------------------------------------------------------- sequences

  lemma Associative<T>(a: seq<T>, b: seq<T>, c: seq<T>)
    ensures a + (b + c) == (a + b) + c
  {
  }

  // ---------------------------------------------------------------- first spellings

  type Spelling = string -> string

  predicate Known(key: Spelling, kept: seq<string>, s: string) {
    exists i :: 0 <= i < |kept| && key(kept[i]) == key(s)
  }

  /** The trimmed, non-blank entries, each where it is first spelled. */
  function FirstSpellings(white: CharClass, key: Spelling, values: seq<string>): seq<string> {
    if values == [] then []
    else
      var kept := FirstSpellings(white, key, values[..|values| - 1]);
      var last := Trim(white, values[|values| - 1]);
      if last == "" || Known(key, kept, last) then kept else kept + [last]
  }

  /** Trimmed, non-blank, and no two entries with the same key. */
  predicate Normalized(white: CharClass, key: Spelling, kept: seq<string>) {
    && (forall i :: 0 <= i < |kept| ==> kept[i] != "" && IsTrimmed(white, kept[i]))
    && (forall i, j :: 0 <= i < j < |kept| ==> key(kept[i]) != key(kept[j]))
  }

  lemma {:induction false} FirstSpellingsNext(white: CharClass, key: Spelling, values: seq<string>, i: nat)
    requires i < |values|
    ensures var kept := FirstSpellings(white, key, values[..i]);
            var next := Trim(white, values[i]);
      FirstSpellings(white, key, values[..i + 1])
        == if next == "" || Known(key, kept, next) then kept else kept + [next]
  {
    assert values[..i + 1][..i] == values[..i];
  }

  lemma {:induction false} FirstSpellingsNormalized(white: CharClass, key: Spelling, values: seq<string>)
    ensures Normalized(white, key, FirstSpellings(white, key, values))
  {
    if values != [] {
      hide FirstSpellings;
      var n := |values| - 1;
      FirstSpellingsNormalized(white, key, values[..n]);
      FirstSpellingsNext(white, key, values, n);
      assert values[..n + 1] == values;
      var next := Trim(white, values[n]);
      assert next != "" ==> IsTrimmed(white, next);
      hide Trim, IsTrimmed;
    }
  }

  /** Every non-blank entry keeps a representative. */
  lemma {:induction false} FirstSpellingsCover(white: CharClass, key: Spelling, values: seq<string>, i: nat)
    requires i < |values| && Trim(white, values[i]) != ""
    ensures Known(key, FirstSpellings(white, key, values), Trim(white, values[i]))
  {
    hide Trim, IsTrimmed, Normalized;
    var n := |values| - 1;
    var before := FirstSpellings(white, key, values[..n]);
    var kept := FirstSpellings(white, key, values);
    assert before <= kept;
    if i < n {
      FirstSpellingsCover(white, key, values[..n], i);
      var j :| 0 <= j < |before| && key(before[j]) == key(Trim(white, values[i]));
      assert kept[j] == before[j];
    } else if !Known(key, before, Trim(white, values[n])) {
      assert kept[|kept| - 1] == Trim(white, values[n]);
    }
  }

  /** Nothing else is kept. */
  lemma {:induction false} FirstSpellingsOnly(white: CharClass, key: Spelling, values: seq<string>, k: nat) returns (i: nat)
    requires k < |FirstSpellings(white, key, values)|
    ensures i < |values| && FirstSpellings(white, key, values)[k] == Trim(white, values[i])
  {
    hide Trim, IsTrimmed, Normalized, Known;
    var n := |values| - 1;
    if k < |FirstSpellings(white, key, values[..n])| {
      i := FirstSpellingsOnly(white, key, values[..n], k);
    } else {
      i := n;
    }
  }

  /** A list that is already normalized is kept as it is. */
  lemma {:induction false} FirstSpellingsOfNormalized(white: CharClass, key: Spelling, values: seq<string>)
    requires Normalized(white, key, values)
    ensures FirstSpellings(white, key, values) == values
  {
    if values != [] {
      hide Trim, FirstSpellings;
      var n := |values| - 1;
      var init := values[..n];
      assert Normalized(white, key, init);
      assert !Known(key, init, values[n]);
      TrimOfTrimmed(white, values[n]);
      FirstSpellingsOfNormalized(white, key, init);
      FirstSpellingsNext(white, key, values, n);
      hide Known, Normalized;
      assert values[..n + 1] == values && init + [values[n]] == values;
    }
  }

  /** The kept entries are those at `first`, in order: each trimmed, not blank, and the first of its spelling. */
  ghost predicate FirstAt(white: CharClass, key: Spelling, values: seq<string>, kept: seq<string>, first: seq<nat>) {
    && |kept| == |first|
    && (forall a, b :: 0 <= a < b < |first| ==> first[a] < first[b])
    && (forall a :: 0 <= a < |first| ==> first[a] < |values| && kept[a] == Trim(white, values[first[a]]) && kept[a] != "")
    && (forall a, i | 0 <= a < |first| && 0 <= i < first[a] && Trim(white, values[i]) != "" :: key(Trim(white, values[i])) != key(kept[a]))
    && (forall i | 0 <= i < |values| && Trim(white, values[i]) != "" :: Known(key, kept, Trim(white, values[i])))
  }

  lemma {:induction false} FirstSpellingsExactly(white: CharClass, key: Spelling, values: seq<string>) returns (first: seq<nat>)
    ensures FirstAt(white, key, values, FirstSpellings(white, key, values), first)
  {
    if values == [] {
      first := [];
    } else {
      var n := |values| - 1;
      first := FirstSpellingsExactly(white, key, values[..n]);
      FirstSpellingsNext(white, key, values, n);
      assert values[..n + 1] == values;
      var kept, next := FirstSpellings(white, key, values[..n]), Trim(white, values[n]);
      hide FirstSpellings, FirstAt, Known, Trim;
      if next == "" || Known(key, kept, next) {
        FirstAtSkips(white, key, values, kept, first);
      } else {
        FirstAtKeeps(white, key, values, kept, first);
        first := first + [n];
      }
    }
  }

  lemma FirstAtSkips(white: CharClass, key: Spelling, values: seq<string>, kept: seq<string>, first: seq<nat>)
    requires values != [] && FirstAt(white, key, values[..|values| - 1], kept, first)
    requires var next := Trim(white, values[|values| - 1]); next == "" || Known(key, kept, next)
    ensures FirstAt(white, key, values, kept, first)
  {
    hide Trim, Known;
    forall i | 0 <= i < |values| && Trim(white, values[i]) != "" ensures Known(key, kept, Trim(white, values[i])) {
      if i < |values| - 1 {
        assert values[..|values| - 1][i] == values[i];
      }
    }
    forall a, i | 0 <= a < |first| && 0 <= i < first[a] && Trim(white, values[i]) != ""
      ensures key(Trim(white, values[i])) != key(kept[a])
    {
      assert values[..|values| - 1][i] == values[i];
    }
  }

  lemma FirstAtKeeps(white: CharClass, key: Spelling, values: seq<string>, kept: seq<string>, first: seq<nat>)
    requires values != [] && FirstAt(white, key, values[..|values| - 1], kept, first)
    requires var next := Trim(white, values[|values| - 1]); next != "" && !Known(key, kept, next)
    ensures var n := |values| - 1; FirstAt(white, key, values, kept + [Trim(white, values[n])], first + [n])
  {
    hide Trim, Known;
    var n := |values| - 1;
    var next := Trim(white, values[n]);
    var kept', first' := kept + [next], first + [n];
    forall i | 0 <= i < |values| && Trim(white, values[i]) != "" ensures Known(key, kept', Trim(white, values[i])) {
      if i < n {
        assert values[..n][i] == values[i];
      }
      KnownLater(key, kept, next, Trim(white, values[i]));
    }
    forall a, i | 0 <= a < |first'| && 0 <= i < first'[a] && Trim(white, values[i]) != ""
      ensures key(Trim(white, values[i])) != key(kept'[a])
    {
      assert values[..n][i] == values[i];
      if a == |first| {
        KnownAlike(key, kept, Trim(white, values[i]), next);
      } else {
        assert kept'[a] == kept[a];
      }
    }
  }

  lemma KnownAlike(key: Spelling, kept: seq<string>, s: string, t: string)
    ensures Known(key, kept, s) && key(s) == key(t) ==> Known(key, kept, t)
  {
  }

  lemma KnownLater(key: Spelling, kept: seq<string>, next: string, s: string)
    ensures Known(key, kept, s) ==> Known(key, kept + [next], s)
    ensures Known(key, kept + [next], next)
  {
    if k :| 0 <= k < |kept| && key(kept[k]) == key(s) {
      assert (kept + [next])[k] == kept[k];
    }
    assert (kept + [next])[|kept|] == next;
  }
}
