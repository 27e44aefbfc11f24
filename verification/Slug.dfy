/** The slug of an organization's name. */
module Slug {
  // ---- the pipeline ----

  predicate IsLetter(c: char) {
    'a' <= c <= 'z' || '0' <= c <= '9'
  }

  predicate IsSlugChar(c: char) {
    IsLetter(c) || c == '-'
  }

  /** Lower-casing may turn one character into several. */
  function Lowered(s: string, lower: char -> string): string {
    if s == "" then "" else lower(s[0]) + Lowered(s[1..], lower)
  }

  function SpacesToDashes(s: string): string {
    if s == "" then "" else [if s[0] == ' ' then '-' else s[0]] + SpacesToDashes(s[1..])
  }

  function Stripped(s: string): string {
    if s == "" then "" else (if IsSlugChar(s[0]) then [s[0]] else "") + Stripped(s[1..])
  }

  function Collapsed(s: string): string {
    if s == "" then ""
    else if |s| > 1 && s[0] == '-' && s[1] == '-' then Collapsed(s[1..])
    else [s[0]] + Collapsed(s[1..])
  }

  function TrimLeft(s: string): string {
    if s != "" && s[0] == '-' then TrimLeft(s[1..]) else s
  }

  function TrimRight(s: string): string {
    if s != "" && s[|s| - 1] == '-' then TrimRight(s[..|s| - 1]) else s
  }

  const MAX_LENGTH := 100

  /** The slug before it is cut to length. */
  function Whole(name: string, lower: char -> string): string {
    TrimRight(TrimLeft(Collapsed(Stripped(SpacesToDashes(Lowered(name, lower))))))
  }

  function Cut(s: string): string {
    if |s| > MAX_LENGTH then s[..MAX_LENGTH] else s
  }

  function Slugify(name: string, lower: char -> string): string {
    var slug := Cut(Whole(name, lower));
    if slug == "" then "org" else slug
  }

  // ---- the same in one pass ----

  /**
   Keep the letters; put one dash between two of them where there was a space or a dash. `gap`: one has been seen since
   the last letter; `begun`: there has been a letter.
   */
  function OnePass(s: string, gap: bool, begun: bool): string {
    if s == "" then ""
    else if IsLetter(s[0]) then Emitted(s[0], OnePass(s[1..], false, true), gap && begun)
    else if s[0] == ' ' || s[0] == '-' then OnePass(s[1..], true, begun)
    else OnePass(s[1..], gap, begun)
  }

  function Emitted(c: char, rest: string, dash: bool): string {
    if dash then "-" + ([c] + rest) else [c] + rest
  }

  lemma {:induction false} OnePassIgnoresTheRest(s: string, gap: bool, begun: bool)
    ensures OnePass(Stripped(SpacesToDashes(s)), gap, begun) == OnePass(s, gap, begun)
  {
    if s != "" {
      var rest := Stripped(SpacesToDashes(s[1..]));
      var first := if s[0] == ' ' then '-' else s[0];
      assert SpacesToDashes(s)[0] == first && SpacesToDashes(s)[1..] == SpacesToDashes(s[1..]);
      if IsSlugChar(first) {
        assert Stripped(SpacesToDashes(s)) == [first] + rest;
      } else {
        assert Stripped(SpacesToDashes(s)) == rest;
      }
      OnePassIgnoresTheRest(s[1..], IsLetter(s[0]) || gap, begun);
      OnePassIgnoresTheRest(s[1..], false, true);
      OnePassIgnoresTheRest(s[1..], true, begun);
      OnePassIgnoresTheRest(s[1..], gap, begun);
    }
  }

  lemma {:induction false} StrippedIsClean(s: string)
    ensures forall i :: 0 <= i < |Stripped(s)| ==> IsSlugChar(Stripped(s)[i])
  {
    if s != "" {
      StrippedIsClean(s[1..]);
    }
  }

  lemma {:induction false} TrimRightOfCons(c: char, s: string)
    ensures TrimRight([c] + s) == if TrimRight(s) == "" && c == '-' then "" else [c] + TrimRight(s)
    decreases |s|
  {
    var whole := [c] + s;
    if s == "" {
      assert whole[..0] == "";
    } else {
      assert whole[|whole| - 1] == s[|s| - 1];
      assert whole[..|whole| - 1] == [c] + s[..|s| - 1];
      TrimRightOfCons(c, s[..|s| - 1]);
    }
  }

  lemma CollapsedAtLetter(s: string)
    requires s != "" && s[0] != '-'
    ensures Collapsed(s) == [s[0]] + Collapsed(s[1..])
    ensures Collapsed("-" + s) == "-" + Collapsed(s)
  {
    assert ("-" + s)[1..] == s;
  }

  lemma CollapsedAtDash(s: string)
    requires s != "" && s[0] == '-'
    ensures Collapsed("-" + s) == Collapsed(s) && s == "-" + s[1..]
  {
    assert ("-" + s)[1..] == s;
  }

  /** What has been dropped so far comes back as one dash, if a letter follows. */
  function Resumed(s: string, gap: bool): string {
    if gap then "-" + s else s
  }

  lemma TrimRightAtLetter(s: string, gap: bool)
    requires s != "" && IsLetter(s[0])
    ensures TrimRight(Collapsed(Resumed(s, gap))) == Emitted(s[0], TrimRight(Collapsed(s[1..])), gap)
  {
    CollapsedAtLetter(s);
    TrimRightOfCons(s[0], Collapsed(s[1..]));
    if gap {
      TrimRightOfCons('-', Collapsed(s));
    }
  }

  /** After the first letter. */
  lemma {:induction false} OnePassInside(s: string, gap: bool)
    requires forall i :: 0 <= i < |s| ==> IsSlugChar(s[i])
    ensures OnePass(s, gap, true) == TrimRight(Collapsed(Resumed(s, gap)))
    decreases |s|
  {
    if s == "" {
      assert Resumed(s, gap) == if gap then "-" else "";
      assert Collapsed("-") == "-" && TrimRight("-") == "";
    } else if s[0] == '-' {
      OnePassInside(s[1..], true);
      CollapsedAtDash(s);
    } else {
      OnePassInside(s[1..], false);
      TrimRightAtLetter(s, gap);
    }
  }

  lemma TrimLeftAtDash(s: string)
    requires s != "" && s[0] == '-'
    ensures TrimLeft(Collapsed(s)) == TrimLeft(Collapsed(s[1..]))
  {
    if s[1..] != "" && s[1] != '-' {
      CollapsedAtLetter(s[1..]);
      assert s == "-" + s[1..];
    }
  }

  lemma TrimLeftAtLetter(s: string)
    requires s != "" && IsLetter(s[0])
    ensures TrimLeft(Collapsed(s)) == Collapsed(s)
  {
    CollapsedAtLetter(s);
  }

  /** Up to the first letter. */
  lemma {:induction false} OnePassFromStart(s: string, gap: bool)
    requires forall i :: 0 <= i < |s| ==> IsSlugChar(s[i])
    ensures OnePass(s, gap, false) == TrimRight(TrimLeft(Collapsed(s)))
    decreases |s|
  {
    if s == "" {
    } else if s[0] == '-' {
      OnePassFromStart(s[1..], true);
      TrimLeftAtDash(s);
    } else {
      OnePassInside(s[1..], false);
      TrimRightAtLetter(s, false);
      TrimLeftAtLetter(s);
    }
  }

  /** The pipeline of replacements does what the single pass does. */
  lemma WholeIsOnePass(name: string, lower: char -> string)
    ensures Whole(name, lower) == OnePass(Lowered(name, lower), false, false)
  {
    var lowered := Lowered(name, lower);
    StrippedIsClean(SpacesToDashes(lowered));
    OnePassFromStart(Stripped(SpacesToDashes(lowered)), false);
    OnePassIgnoresTheRest(lowered, false, false);
  }

  /** A slug is the first hundred characters of the single pass, or "org" if that has none. */
  lemma SlugIsOnePass(name: string, lower: char -> string)
    ensures var pass := OnePass(Lowered(name, lower), false, false);
      Slugify(name, lower) == if pass == "" then "org" else if |pass| <= 100 then pass else pass[..100]
  {
    WholeIsOnePass(name, lower);
  }

  // ---- the shape of a slug ----

  predicate Tidy(s: string) {
    && (forall i :: 0 <= i < |s| ==> IsSlugChar(s[i]))
    && (forall i :: 0 < i < |s| && s[i] == '-' ==> s[i - 1] != '-')
  }

  predicate EndsInDash(s: string) {
    s != "" && s[|s| - 1] == '-'
  }

  predicate StartsWithDash(s: string) {
    s != "" && s[0] == '-'
  }

  lemma LetterFirst(c: char, s: string)
    requires IsLetter(c) && Tidy(s) && !EndsInDash(s)
    ensures Tidy([c] + s) && !EndsInDash([c] + s)
  {
    var t := [c] + s;
    assert forall i :: 0 < i < |t| ==> t[i] == s[i - 1];
  }

  lemma DashFirst(s: string)
    requires s != "" && s[0] != '-' && Tidy(s) && !EndsInDash(s)
    ensures Tidy("-" + s) && !EndsInDash("-" + s)
  {
    var t := "-" + s;
    assert forall i :: 0 < i < |t| ==> t[i] == s[i - 1];
  }

  lemma EmittedIsTidy(c: char, rest: string, dash: bool)
    requires IsLetter(c) && Tidy(rest) && !EndsInDash(rest)
    ensures Tidy(Emitted(c, rest, dash)) && !EndsInDash(Emitted(c, rest, dash))
      && (!dash ==> !StartsWithDash(Emitted(c, rest, dash)))
  {
    LetterFirst(c, rest);
    if dash {
      DashFirst([c] + rest);
    }
  }

  lemma {:induction false} OnePassIsTidy(s: string, gap: bool, begun: bool)
    ensures var r := OnePass(s, gap, begun);
      Tidy(r) && !EndsInDash(r) && (!begun ==> !StartsWithDash(r))
  {
    if s != "" {
      if IsLetter(s[0]) {
        OnePassIsTidy(s[1..], false, true);
        EmittedIsTidy(s[0], OnePass(s[1..], false, true), gap && begun);
      } else if s[0] == ' ' || s[0] == '-' {
        OnePassIsTidy(s[1..], true, begun);
      } else {
        OnePassIsTidy(s[1..], gap, begun);
      }
    }
  }

  /** A slug has 1 to 100 characters from [a-z0-9-], does not start with a dash, and has no two dashes in a row. */
  lemma SlugShape(name: string, lower: char -> string)
    ensures var slug := Slugify(name, lower);
      1 <= |slug| <= MAX_LENGTH && Tidy(slug) && !StartsWithDash(slug)
  {
    WholeIsOnePass(name, lower);
    OnePassIsTidy(Lowered(name, lower), false, false);
  }

  // ---- slugs of slugs ----

  /** Lower-casing leaves lower-case letters, digits and dashes alone. */
  ghost predicate KeepsSlugChars(lower: char -> string) {
    forall c :: IsSlugChar(c) ==> lower(c) == [c]
  }

  lemma {:induction false} LoweredSlug(s: string, lower: char -> string)
    requires KeepsSlugChars(lower) && Tidy(s)
    ensures Lowered(s, lower) == s
  {
    if s != "" {
      TidyTail(s);
      LoweredSlug(s[1..], lower);
    }
  }

  lemma TidyTail(s: string)
    requires s != "" && Tidy(s)
    ensures Tidy(s[1..])
  {
    assert forall i :: 0 <= i < |s[1..]| ==> s[1..][i] == s[i + 1];
  }

  lemma {:induction false} OnePassKeepsTidy(s: string, begun: bool)
    requires Tidy(s) && !EndsInDash(s) && (begun || !StartsWithDash(s))
    ensures OnePass(s, false, begun) == s
    decreases |s|
  {
    if s != "" {
      TidyTail(s);
      if IsLetter(s[0]) {
        OnePassKeepsTidy(s[1..], true);
      } else {
        TidyTail(s[1..]);
        assert s[1] != '-' && IsLetter(s[1]);
        OnePassKeepsTidy(s[2..], true);
        assert OnePass(s, false, true) == OnePass(s[1..], true, true)
          == Emitted(s[1], OnePass(s[1..][1..], false, true), true);
        assert s[1..][1..] == s[2..];
      }
    }
  }

  /** Cutting to length leaves a dash at the end. */
  predicate CutAtDash(name: string, lower: char -> string) {
    |Whole(name, lower)| > MAX_LENGTH && Whole(name, lower)[MAX_LENGTH - 1] == '-'
  }

  lemma EndsInDashIff(name: string, lower: char -> string)
    ensures EndsInDash(Slugify(name, lower)) <==> CutAtDash(name, lower)
  {
    WholeIsOnePass(name, lower);
    OnePassIsTidy(Lowered(name, lower), false, false);
  }

  /** The slug of a slug is that slug, except where the cut left a dash at the end. */
  lemma SlugOfSlugIff(name: string, lower: char -> string)
    requires KeepsSlugChars(lower)
    ensures Slugify(Slugify(name, lower), lower) == Slugify(name, lower) <==> !CutAtDash(name, lower)
  {
    var slug := Slugify(name, lower);
    SlugShape(name, lower);
    EndsInDashIff(name, lower);
    LoweredSlug(slug, lower);
    WholeIsOnePass(slug, lower);
    if CutAtDash(name, lower) {
      OnePassIsTidy(slug, false, false);
      assert !EndsInDash(Whole(slug, lower));
      OnePassIsShort(slug, false, false);
    } else {
      OnePassKeepsTidy(slug, false);
    }
  }

  /** The single pass never makes a string of slug characters longer. */
  lemma {:induction false} OnePassIsShort(s: string, gap: bool, begun: bool)
    ensures |OnePass(s, gap, begun)| <= |s| + (if gap then 1 else 0)
  {
    if s != "" {
      OnePassIsShort(s[1..], false, true);
      OnePassIsShort(s[1..], true, begun);
      OnePassIsShort(s[1..], gap, begun);
    }
  }

  /** Ninety-nine letters, a dash and one more letter: cut to a slug that ends in a dash, whose own slug is shorter. */
  lemma CutAtDashHappens()
    ensures var lower := (c: char) => [c];
      var name := seq(99, i => 'a') + "-b"; var slug := Slugify(name, lower);
      CutAtDash(name, lower) && Slugify(slug, lower) != slug
  {
    var lower := (c: char) => [c];
    var name := seq(99, i => 'a') + "-b";
    assert forall i :: 0 <= i < 99 ==> name[i] == 'a';
    LoweredSlug(name, lower);
    WholeIsOnePass(name, lower);
    OnePassKeepsTidy(name, false);
    SlugOfSlugIff(name, lower);
  }

  // ---- slugs and the schema ----

  /** What the schema asks of a slug that is given: 3 to 100 characters, a letter or digit first and last. */
  predicate SchemaAccepts(slug: string) {
    && 3 <= |slug| <= 100
    && (forall i :: 0 <= i < |slug| ==> IsSlugChar(slug[i]))
    && IsLetter(slug[0]) && IsLetter(slug[|slug| - 1])
  }

  /** A slug made from a name would itself be accepted as a given one, unless it is very short or was cut at a dash. */
  lemma SchemaAcceptsIff(name: string, lower: char -> string)
    ensures SchemaAccepts(Slugify(name, lower)) <==> |Slugify(name, lower)| >= 3 && !CutAtDash(name, lower)
  {
    SlugShape(name, lower);
    EndsInDashIff(name, lower);
  }
}
