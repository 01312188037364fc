/** How the bootstrap script derives a tenant's slug, and which slugs a tenant may have. */
module Slug {
  import opened Wrappers
  import opened Text

  predicate IsAlnum(c: char) {
    'a' <= c <= 'z' || '0' <= c <= '9'
  }

  predicate IsSlugChar(c: char) {
    IsAlnum(c) || c == '-'
  }

  predicate HasAlnum(s: string) {
    exists i :: 0 <= i < |s| && IsAlnum(s[i])
  }

  // ---------------------------------------------------------------------
  // TenantSlug
  // ---------------------------------------------------------------------

  /** ^[a-z0-9][a-z0-9-]{1,61}[a-z0-9]$ */
  predicate SlugPattern(s: string) {
    && 3 <= |s| <= 63
    && IsAlnum(s[0]) && IsAlnum(s[|s| - 1])
    && forall i :: 0 <= i < |s| ==> IsSlugChar(s[i])
  }

  function TenantSlug(value: string): Option<string> {
    var normalized := Trim(Lower(value));
    if SlugPattern(normalized) then Some(normalized) else None
  }

  // ---------------------------------------------------------------------
  // slugify
  // ---------------------------------------------------------------------

  /** The operator's own slug, if it is long enough to be taken. */
  function Explicit(raw: Option<string>): Option<string> {
    if raw.Some? && |Lower(Trim(raw.value))| >= 3 then Some(Lower(Trim(raw.value))) else None
  }

  predicate IsMark(c: char) {
    0x300 <= c as int <= 0x36F
  }

  function StripMarks(s: string): string {
    if s == [] then [] else (if IsMark(s[0]) then [] else [s[0]]) + StripMarks(s[1..])
  }

  function SkipOthers(s: string): (r: string)
    ensures |r| <= |s| && (r != [] ==> IsAlnum(r[0]))
  {
    if s != [] && !IsAlnum(s[0]) then SkipOthers(s[1..]) else s
  }

  /** Every maximal run of other characters becomes one hyphen. */
  function Hyphenate(s: string): string
    decreases |s|
  {
    if s == [] then []
    else if IsAlnum(s[0]) then [s[0]] + Hyphenate(s[1..])
    else ['-'] + Hyphenate(SkipOthers(s[1..]))
  }

  function StripLeading(s: string): (r: string)
    ensures r != [] ==> r[0] != '-'
  {
    if s != [] && s[0] == '-' then StripLeading(s[1..]) else s
  }

  function StripTrailing(s: string): (r: string)
    ensures r <= s && (r != [] ==> r[|r| - 1] != '-')
  {
    if s != [] && s[|s| - 1] == '-' then StripTrailing(s[..|s| - 1]) else s
  }

  function Padded(s: string): string {
    if |s| < 3 then s + "-org" else s
  }

  function Cut(s: string): string {
    if |s| > 63 then StripTrailing(s[..63]) else s
  }

  function Core(folded: string): string {
    StripTrailing(StripLeading(Hyphenate(StripMarks(folded))))
  }

  function SlugOf(folded: string): string {
    Cut(Padded(Core(folded)))
  }

  /** `fold` is lower case and compatibility decomposition. */
  method Slugify(raw: Option<string>, input: string, fold: string -> string) returns (s: string)
    ensures s == Explicit(raw).GetOr(SlugOf(fold(input)))
    ensures s == if raw.Some? && |Trim(raw.value)| >= 3 then Lower(Trim(raw.value)) else SlugOf(fold(input))
  {
    if raw.Some? {
      var explicit := Lower(Trim(raw.value));
      if |explicit| >= 3 {
        return explicit;
      }
    }
    s := fold(input);
    s := StripMarks(s);
    s := Hyphenate(s);
    s := StripTrailing(StripLeading(s));
    if |s| < 3 {
      s := s + "-org";
    }
    if |s| > 63 {
      s := StripTrailing(s[..63]);
    }
  }

  // ---------------------------------------------------------------------
  // What it is made of
  // ---------------------------------------------------------------------

  /** The characters that are no marks stay, in their order. */
  lemma {:induction false} StripMarksKeeps(s: string, i: nat) returns (kept: seq<nat>)
    requires i <= |s|
    ensures |kept| == |StripMarks(s[i..])|
    ensures forall j, m :: 0 <= j < m < |kept| ==> kept[j] < kept[m]
    ensures forall j :: 0 <= j < |kept| ==> i <= kept[j] < |s| && StripMarks(s[i..])[j] == s[kept[j]]
    ensures forall k: nat :: i <= k < |s| ==> (k in kept <==> !(0x300 <= s[k] as int <= 0x36F))
    decreases |s| - i
  {
    kept := [];
    if i < |s| {
      kept := StripMarksKeeps(s, i + 1);
      assert s[i..][0] == s[i] && s[i..][1..] == s[i + 1..];
      if !IsMark(s[i]) {
        kept := [i] + kept;
      }
    }
  }

  lemma {:induction false} SkipOthersCuts(s: string, i: nat) returns (n: nat)
    requires i <= |s|
    ensures i <= n <= |s| && SkipOthers(s[i..]) == s[n..]
    ensures forall k :: i <= k < n ==> !IsAlnum(s[k])
    decreases |s| - i
  {
    n := i;
    if i < |s| && !IsAlnum(s[i]) {
      n := SkipOthersCuts(s, i + 1);
      assert s[i..][0] == s[i] && s[i..][1..] == s[i + 1..];
    }
  }

  /**
   * `h` is made from the characters of `s` at some places, in order: letters and digits as they
   * are, others as hyphens, of which no two are neighbours; neighbouring letters and digits were
   * neighbours already.
   */
  ghost predicate MadeFrom(h: string, s: string, at: seq<nat>) {
    && |at| == |h|
    && (forall j, m :: 0 <= j < m < |at| ==> at[j] < at[m])
    && (forall j :: 0 <= j < |at| ==> at[j] < |s| && h[j] == if IsAlnum(s[at[j]]) then s[at[j]] else '-')
    && forall j :: 0 < j < |at| ==>
         if IsAlnum(h[j]) && IsAlnum(h[j - 1]) then at[j] == at[j - 1] + 1 else IsAlnum(h[j]) || IsAlnum(h[j - 1])
  }

  lemma NothingMade(s: string)
    ensures MadeFrom([], s, [])
  {
  }

  lemma MadeFromOneMore(h: string, s: string, at: seq<nat>, i: nat)
    requires MadeFrom(h, s, at) && |at| == |h| && i < |s|
    requires forall j :: 0 <= j < |at| ==> i < at[j]
    requires h != [] ==> if IsAlnum(s[i]) then at[0] == i + 1 else IsAlnum(h[0])
    ensures MadeFrom([if IsAlnum(s[i]) then s[i] else '-'] + h, s, [i] + at)
  {
  }

  lemma {:induction false} HyphenateAt(s: string, i: nat) returns (at: seq<nat>)
    requires i <= |s|
    ensures MadeFrom(Hyphenate(s[i..]), s, at) && |at| == |Hyphenate(s[i..])|
    ensures i < |s| ==> at != [] && at[0] == i
    ensures forall j :: 0 <= j < |at| ==> i <= at[j]
    ensures forall k: nat :: i <= k < |s| && IsAlnum(s[k]) ==> k in at
    decreases |s| - i
  {
    hide MadeFrom, Clean, HasAlnum;
    at := [];
    NothingMade(s);
    if i < |s| {
      var n := i + 1;
      assert s[i..][0] == s[i] && s[i..][1..] == s[n..];
      if !IsAlnum(s[i]) {
        n := SkipOthersCuts(s, n);
      }
      var rest := HyphenateAt(s, n);
      HyphenateIsClean(s[n..]);
      MadeFromOneMore(Hyphenate(s[n..]), s, rest, i);
      at := [i] + rest;
    }
  }

  lemma StripsFirst(h: string, s: string, at: seq<nat>) returns (led: seq<nat>)
    requires MadeFrom(h, s, at)
    ensures MadeFrom(StripLeading(h), s, led)
    ensures forall k :: k in at && k < |s| && IsAlnum(s[k]) ==> k in led
  {
    led := at;
    if h != [] && h[0] == '-' {
      led := at[1..];
      assert StripLeading(h) == h[1..] by {
        assert |h| > 1 ==> h[1] != '-';
      }
    }
  }

  lemma StripsLast(h: string, s: string, at: seq<nat>) returns (core: seq<nat>)
    requires MadeFrom(h, s, at)
    ensures MadeFrom(StripTrailing(h), s, core)
    ensures forall k :: k in at && k < |s| && IsAlnum(s[k]) ==> k in core
  {
    core := at;
    var n := |h| - 1;
    if h != [] && h[n] == '-' {
      core := at[..n];
      assert StripTrailing(h) == h[..n] by {
        assert n > 0 ==> h[..n][n - 1] != '-';
      }
    }
  }

  lemma CoreAt(folded: string) returns (at: seq<nat>)
    ensures MadeFrom(Core(folded), StripMarks(folded), at)
    ensures forall k :: 0 <= k < |StripMarks(folded)| && IsAlnum(StripMarks(folded)[k]) ==> k in at
  {
    hide MadeFrom, StripMarks, Hyphenate, StripLeading, StripTrailing;
    var s := StripMarks(folded);
    var all := HyphenateAt(s, 0);
    assert s[0..] == s;
    var led := StripsFirst(Hyphenate(s), s, all);
    at := StripsLast(StripLeading(Hyphenate(s)), s, led);
  }

  lemma MadeFromTells(core: string, s: string, at: seq<nat>)
    requires MadeFrom(core, s, at) && (core != [] ==> core[0] != '-' && core[|core| - 1] != '-')
    ensures |at| == |core| && forall j, m :: 0 <= j < m < |at| ==> at[j] < at[m]
    ensures forall j :: 0 <= j < |at| ==>
              at[j] < |s| && core[j] == if 'a' <= s[at[j]] <= 'z' || '0' <= s[at[j]] <= '9' then s[at[j]] else '-'
    ensures forall j :: 0 < j < |at| && core[j - 1] != '-' && core[j] != '-' ==> at[j] == at[j - 1] + 1
    ensures forall j :: 0 <= j < |at| && core[j] == '-' ==> 0 < j < |at| - 1 && core[j - 1] != '-' && core[j + 1] != '-'
  {
    forall j | 0 <= j < |at| && core[j] == '-' ensures 0 < j < |at| - 1 && core[j - 1] != '-' && core[j + 1] != '-' {
      assert 0 < j < |at| - 1;
      assert IsAlnum(core[j - 1]);
      var next := j + 1;
      assert IsAlnum(core[next]);
    }
  }

  /**
   * The core of a slug is made of the maximal runs of ASCII letters and digits of the name without
   * its marks, in their order, with one hyphen between two runs. Character j of it comes from place
   * at[j]: all letters and digits stay, neighbours in the core only where they were neighbours, and
   * a hyphen stands for some other character between a letter or digit and the next.
   */
  lemma CoreIsWords(folded: string) returns (at: seq<nat>)
    ensures var s, core := StripMarks(folded), Core(folded);
      && |at| == |core|
      && (forall j, m :: 0 <= j < m < |at| ==> at[j] < at[m])
      && (forall j :: 0 <= j < |at| ==>
            at[j] < |s| && core[j] == if 'a' <= s[at[j]] <= 'z' || '0' <= s[at[j]] <= '9' then s[at[j]] else '-')
      && (forall k: nat :: k < |s| && ('a' <= s[k] <= 'z' || '0' <= s[k] <= '9') ==> k in at)
      && (forall j :: 0 < j < |at| && core[j - 1] != '-' && core[j] != '-' ==> at[j] == at[j - 1] + 1)
      && forall j :: 0 <= j < |at| && core[j] == '-' ==> 0 < j < |at| - 1 && core[j - 1] != '-' && core[j + 1] != '-'
  {
    var s, core := StripMarks(folded), Core(folded);
    CoreIsClean(folded);
    at := CoreAt(folded);
    MadeFromTells(core, s, at);
  }

  /** From the core on: short ones are padded, long ones cut at 63 characters, or 62 where that leaves a hyphen last. */
  lemma SlugOfCore(folded: string)
    ensures var core, slug := Core(folded), SlugOf(folded);
            if |core| < 3 then slug == core + "-org"
            else if |core| <= 63 then slug == core
            else slug == if core[62] == '-' then core[..62] else core[..63]
  {
    var core := Core(folded);
    CoreIsClean(folded);
    if |core| > 63 {
      assert core[..63][62] == core[62] && core[..63][..62] == core[..62];
      if core[62] == '-' {
        assert core[61] != '-' && core[..62][61] == core[61];
        assert StripTrailing(core[..62]) == core[..62];
      }
    }
  }

  // ---------------------------------------------------------------------
  // What it yields
  // ---------------------------------------------------------------------

  /** Slug characters only, and no hyphen after a hyphen. */
  predicate Clean(s: string) {
    && (forall i :: 0 <= i < |s| ==> IsSlugChar(s[i]))
    && forall i :: 0 <= i < |s| - 1 ==> s[i] != '-' || s[i + 1] != '-'
  }

  /** What every slug is that the derivation is meant to yield. */
  predicate GoodSlug(s: string) {
    SlugPattern(s) && Clean(s)
  }

  lemma {:induction false} StripMarksKeepsAlnum(s: string)
    ensures HasAlnum(StripMarks(s)) <==> HasAlnum(s)
  {
    if s != [] {
      StripMarksKeepsAlnum(s[1..]);
      HasAlnumCons(s[0], s[1..]);
      HasAlnumCons(s[0], StripMarks(s[1..]));
      assert s == [s[0]] + s[1..];
      assert [] + StripMarks(s[1..]) == StripMarks(s[1..]);
    }
  }

  lemma HasAlnumCons(c: char, s: string)
    ensures HasAlnum([c] + s) <==> IsAlnum(c) || HasAlnum(s)
  {
    if i :| 0 <= i < |s| && IsAlnum(s[i]) {
      assert ([c] + s)[i + 1] == s[i];
    }
    if IsAlnum(c) {
      assert ([c] + s)[0] == c;
    }
  }

  lemma {:induction false} SkipOthersKeepsAlnum(s: string)
    ensures HasAlnum(SkipOthers(s)) <==> HasAlnum(s)
  {
    if s != [] && !IsAlnum(s[0]) {
      SkipOthersKeepsAlnum(s[1..]);
      HasAlnumCons(s[0], s[1..]);
      assert s == [s[0]] + s[1..];
    }
  }

  lemma {:induction false} HyphenateIsClean(s: string)
    ensures Clean(Hyphenate(s))
    ensures HasAlnum(Hyphenate(s)) <==> HasAlnum(s)
    ensures s != [] && IsAlnum(s[0]) ==> Hyphenate(s) != [] && IsAlnum(Hyphenate(s)[0])
    decreases |s|
  {
    if s != [] {
      assert s == [s[0]] + s[1..];
      var rest := if IsAlnum(s[0]) then s[1..] else SkipOthers(s[1..]);
      HyphenateIsClean(rest);
      SkipOthersKeepsAlnum(s[1..]);
      HasAlnumCons(s[0], s[1..]);
      HasAlnumCons(if IsAlnum(s[0]) then s[0] else '-', Hyphenate(rest));
      assert rest == [] ==> Hyphenate(rest) == [];
    }
  }

  lemma {:induction false} StripLeadingIsClean(s: string)
    requires Clean(s)
    ensures Clean(StripLeading(s))
    ensures HasAlnum(StripLeading(s)) <==> HasAlnum(s)
  {
    if s != [] && s[0] == '-' {
      assert forall i :: 0 <= i < |s[1..]| ==> s[1..][i] == s[i + 1];
      StripLeadingIsClean(s[1..]);
      HasAlnumCons(s[0], s[1..]);
      assert s == [s[0]] + s[1..];
    }
  }

  /** A clean string ends in one hyphen at most. */
  lemma StripTrailingIsClean(s: string)
    requires Clean(s)
    ensures Clean(StripTrailing(s))
    ensures HasAlnum(StripTrailing(s)) <==> HasAlnum(s)
    ensures |StripTrailing(s)| >= |s| - 1
  {
    var n := |s| - 1;
    if s != [] && s[n] == '-' {
      assert StripTrailing(s) == s[..n] by {
        assert n > 0 ==> s[..n][n - 1] != '-';
      }
      if i :| 0 <= i < |s| && IsAlnum(s[i]) {
        assert s[..n][i] == s[i];
      }
    }
  }

  lemma CoreIsClean(folded: string)
    ensures Clean(Core(folded))
    ensures Core(folded) != [] ==> IsAlnum(Core(folded)[0]) && IsAlnum(Core(folded)[|Core(folded)| - 1])
    ensures Core(folded) != [] <==> HasAlnum(folded)
  {
    var h := Hyphenate(StripMarks(folded));
    StripMarksKeepsAlnum(folded);
    HyphenateIsClean(StripMarks(folded));
    StripLeadingIsClean(h);
    StripTrailingIsClean(StripLeading(h));
    var core := Core(folded);
    assert core != [] ==> core[0] == StripLeading(h)[0];
    assert core != [] ==> IsAlnum(core[0]);
  }

  lemma SlugIsGood(core: string)
    requires Clean(core) && core != [] && IsAlnum(core[0]) && IsAlnum(core[|core| - 1])
    ensures GoodSlug(Cut(Padded(core)))
  {
    var p := Padded(core);
    assert Clean(p) && IsAlnum(p[0]) && IsAlnum(p[|p| - 1]);
    if |p| > 63 {
      StripTrailingIsClean(p[..63]);
      var s := Cut(p);
      assert s[0] == p[0] && IsSlugChar(s[|s| - 1]);
    }
  }

  lemma PatternTells(s: string)
    ensures SlugPattern(s) <==>
            && 3 <= |s| <= 63 && s[0] != '-' && s[|s| - 1] != '-'
            && forall i :: 0 <= i < |s| ==> 'a' <= s[i] <= 'z' || '0' <= s[i] <= '9' || s[i] == '-'
  {
  }

  lemma GoodSlugIsFixed(s: string)
    requires GoodSlug(s)
    ensures TenantSlug(s) == Some(s) && SlugOf(s) == s
  {
    LowerOfSlug(s);
    TrimKeepsTrimmed(s);
    CoreOfGood(s);
  }

  lemma CoreOfGood(s: string)
    requires GoodSlug(s)
    ensures Core(s) == s
  {
    hide Hyphenate, StripMarks;
    MarksOfSlug(s);
    HyphenateOfClean(s);
  }

  lemma LowerOfSlug(s: string)
    requires forall i :: 0 <= i < |s| ==> IsSlugChar(s[i])
    ensures Lower(s) == s
  {
  }

  lemma {:induction false} MarksOfSlug(s: string)
    requires forall i :: 0 <= i < |s| ==> IsSlugChar(s[i])
    ensures StripMarks(s) == s
  {
    if s != [] {
      MarksOfSlug(s[1..]);
    }
  }

  lemma {:induction false} HyphenateOfClean(s: string)
    requires Clean(s)
    ensures Hyphenate(s) == s
    decreases |s|
  {
    if s != [] {
      assert forall i :: 0 <= i < |s[1..]| ==> s[1..][i] == s[i + 1];
      HyphenateOfClean(s[1..]);
      assert s == [s[0]] + s[1..];
      assert !IsAlnum(s[0]) ==> SkipOthers(s[1..]) == s[1..];
    }
  }

  /**
   * The derived slug is accepted, and left as it is, exactly when the folded name has an
   * ASCII letter or digit; then it has 3 to 63 characters and no double hyphen.
   */
  lemma DerivedSlugAcceptedIff(folded: string)
    ensures TenantSlug(SlugOf(folded)) == Some(SlugOf(folded)) <==> HasAlnum(folded)
    ensures HasAlnum(folded) ==> GoodSlug(SlugOf(folded))
    ensures HasAlnum(folded) <==> exists i :: 0 <= i < |folded| && ('a' <= folded[i] <= 'z' || '0' <= folded[i] <= '9')
    ensures HasAlnum(folded) ==>
              var slug := SlugOf(folded);
              && 3 <= |slug| <= 63 && slug[0] != '-' && slug[|slug| - 1] != '-'
              && (forall i :: 0 <= i < |slug| ==> 'a' <= slug[i] <= 'z' || '0' <= slug[i] <= '9' || slug[i] == '-')
              && forall i :: 0 <= i < |slug| - 1 ==> slug[i] != '-' || slug[i + 1] != '-'
    ensures !HasAlnum(folded) ==> SlugOf(folded) == "-org" && TenantSlug("-org") == None
  {
    CoreIsClean(folded);
    PatternTells(SlugOf(folded));
    hide TenantSlug, SlugPattern, Core, Clean;
    if HasAlnum(folded) {
      SlugIsGood(Core(folded));
      GoodSlugIsFixed(SlugOf(folded));
    } else {
      assert SlugOf(folded) == "-org";
      NothingLeft();
    }
  }

  lemma NothingLeft()
    ensures SlugOf("-org") == "org" && TenantSlug("-org") == None
  {
    hide Hyphenate, StripMarks, Lower, Trim, StripLeading, StripTrailing;
    LowerOfSlug("-org");
    TrimKeepsTrimmed("-org");
    MarksOfSlug("-org");
    HyphenateOfClean("-org");
    StripsOrg();
  }

  lemma StripsOrg()
    ensures StripLeading("-org") == "org" && StripTrailing("org") == "org"
  {
    assert StripLeading("-org"[1..]) == "org";
  }

  /** Deriving a slug from a derived slug changes nothing, exactly for the same names. */
  lemma DerivationIsIdempotentIff(folded: string)
    ensures SlugOf(SlugOf(folded)) == SlugOf(folded) <==> HasAlnum(folded)
  {
    DerivedSlugAcceptedIff(folded);
    if HasAlnum(folded) {
      GoodSlugIsFixed(SlugOf(folded));
    } else {
      NothingLeft();
    }
  }

  /** An explicit slug is stored as given exactly when it matches the pattern; otherwise it is rejected. */
  lemma ExplicitSlugAcceptedIff(raw: string)
    requires Explicit(Some(raw)).Some?
    ensures var s := Explicit(Some(raw)).value;
            TenantSlug(s) == if SlugPattern(s) then Some(s) else None
    ensures var s := Lower(Trim(raw));
            && Explicit(Some(raw)) == Some(s)
            && (TenantSlug(s) == Some(s) <==>
                && 3 <= |s| <= 63 && s[0] != '-' && s[|s| - 1] != '-'
                && forall i :: 0 <= i < |s| ==> 'a' <= s[i] <= 'z' || '0' <= s[i] <= '9' || s[i] == '-')
  {
    PatternTells(Lower(Trim(raw)));
    hide SlugPattern, Trim, Lower;
    TrimLowerOfTrimmed(Trim(raw));
  }
}
