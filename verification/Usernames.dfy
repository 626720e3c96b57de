/** Slugs and the reservation of user names (src/layman/util.py, src/layman/user/util.py). Input is ASCII, for which
    unidecode and the Unicode normalisation change nothing. */
module Usernames {
  import opened Names
  import opened Decimals

  predicate IsAlnum(c: char) {
    IsLower(c) || IsDigit(c)
  }

  /** Matched by `\s`. */
  predicate IsSpace(c: char) {
    c == ' ' || 9 as char <= c <= 13 as char || 28 as char <= c <= 31 as char
  }

  /** Matched by `[\s\-\._]`. */
  predicate IsSeparator(c: char) {
    IsSpace(c) || c == '-' || c == '.' || c == '_'
  }

  /** Tabulator, line breaks, the four separator codes, blank, hyphen, dot and underscore. */
  lemma SeparatorsAre(c: char)
    ensures IsSeparator(c) <==> c as int in {9, 10, 11, 12, 13, 28, 29, 30, 31, 32, 45, 46, 95}
  {}

  function LowerChar(c: char): char {
    if IsUpper(c) then (c as int + 32) as char else c
  }

  /** What matches neither `\w`, `\s`, the hyphen nor the dot is dropped, the rest is lower-cased. */
  function Kept(s: string): string {
    if s == "" then ""
    else if IsUpper(s[0]) || IsAlnum(s[0]) || IsSeparator(s[0]) then [LowerChar(s[0])] + Kept(s[1..])
    else Kept(s[1..])
  }

  function AfterSeparators(s: string): (r: string)
    ensures |r| <= |s|
  {
    if s != "" && IsSeparator(s[0]) then AfterSeparators(s[1..]) else s
  }

  /** Each run of separators becomes one underscore. */
  function Collapsed(s: string): string
    decreases |s|
  {
    if s == "" then ""
    else if IsSeparator(s[0]) then "_" + Collapsed(AfterSeparators(s[1..]))
    else [s[0]] + Collapsed(s[1..])
  }

  function StripLeft(s: string): string {
    if s != "" && s[0] == '_' then StripLeft(s[1..]) else s
  }

  function StripRight(s: string): string {
    if s != "" && s[|s| - 1] == '_' then StripRight(s[..|s| - 1]) else s
  }

  function Slug(s: string): string {
    StripRight(StripLeft(Collapsed(Kept(s))))
  }

  function SafeName(unsafeName: string, typeName: string): string {
    var value := Slug(unsafeName);
    if value == "" then typeName
    else if !IsAlnum(value[0]) then typeName + "_" + value
    else value
  }

  /** Empty, or lower-case words of letters and digits joined by single underscores. */
  predicate IsSlug(t: string) {
    t == "" || (IsAlnum(t[0]) && IsWorkspaceTail(t[1..]))
  }

  /* ---- the shape of a slug ---- */

  /** Letters, digits and single underscores. */
  predicate SinglyJoined(t: string) {
    && (forall i | 0 <= i < |t| :: IsAlnum(t[i]) || t[i] == '_')
    && (forall i | 0 <= i < |t| - 1 :: t[i] == '_' ==> t[i + 1] != '_')
  }

  predicate KeptChars(s: string) {
    forall i | 0 <= i < |s| :: IsAlnum(s[i]) || IsSeparator(s[i])
  }

  lemma {:induction false} KeptHasKeptChars(s: string)
    ensures KeptChars(Kept(s))
  {
    if s != "" {
      KeptHasKeptChars(s[1..]);
    }
  }

  lemma {:induction false} AfterSeparatorsFits(s: string)
    requires KeptChars(s)
    ensures var r := AfterSeparators(s); KeptChars(r) && (r == "" || IsAlnum(r[0]))
  {
    if s != "" && IsSeparator(s[0]) {
      AfterSeparatorsFits(s[1..]);
    }
  }

  lemma {:induction false} CollapsedIsJoined(s: string)
    requires KeptChars(s)
    ensures SinglyJoined(Collapsed(s))
    ensures s != "" && IsAlnum(s[0]) ==> Collapsed(s) != "" && Collapsed(s)[0] != '_'
    decreases |s|
  {
    if s == "" {
    } else if IsSeparator(s[0]) {
      var rest := AfterSeparators(s[1..]);
      AfterSeparatorsFits(s[1..]);
      CollapsedIsJoined(rest);
      AddedInFront('_', Collapsed(rest));
    } else {
      CollapsedIsJoined(s[1..]);
      AddedInFront(s[0], Collapsed(s[1..]));
    }
  }

  lemma AddedInFront(c: char, t: string)
    requires SinglyJoined(t) && (IsAlnum(c) || c == '_') && (c == '_' && t != "" ==> t[0] != '_')
    ensures SinglyJoined([c] + t)
  {
    var s := [c] + t;
    assert forall i | 1 <= i < |s| :: s[i] == t[i - 1];
    forall i | 0 <= i < |s| - 1 && s[i] == '_' ensures s[i + 1] != '_' {
      if i > 0 {
        assert t[i - 1] == '_' && t[i - 1 + 1] != '_';
      }
    }
  }

  lemma {:induction false} StripLeftFits(t: string)
    requires SinglyJoined(t)
    ensures var r := StripLeft(t); SinglyJoined(r) && (r == "" || r[0] != '_')
  {
    if t != "" && t[0] == '_' {
      StripLeftFits(t[1..]);
    }
  }

  lemma {:induction false} StripRightFits(t: string)
    requires SinglyJoined(t) && (t == "" || t[0] != '_')
    ensures var r := StripRight(t); SinglyJoined(r) && (r == "" || (r[0] != '_' && r[|r| - 1] != '_'))
  {
    if t != "" && t[|t| - 1] == '_' {
      StripRightFits(t[..|t| - 1]);
    }
  }

  lemma {:induction false} JoinedIsTail(t: string)
    requires SinglyJoined(t) && (t == "" || t[|t| - 1] != '_')
    ensures IsWorkspaceTail(t)
  {
    if t != "" {
      JoinedIsTail(t[1..]);
    }
  }

  lemma SlugIsSlug(s: string)
    ensures IsSlug(Slug(s))
  {
    KeptHasKeptChars(s);
    CollapsedIsJoined(Kept(s));
    StripLeftFits(Collapsed(Kept(s)));
    StripRightFits(StripLeft(Collapsed(Kept(s))));
    var t := Slug(s);
    if t != "" {
      JoinedIsTail(t[1..]);
    }
  }

  /* ---- slugs stay as they are ---- */

  lemma {:induction false} TailIsKept(t: string)
    requires IsWorkspaceTail(t)
    ensures Kept(t) == t && Collapsed(t) == t
    ensures t != "" ==> t[|t| - 1] != '_'
    decreases |t|
  {
    if t == "" {
    } else {
      TailIsKept(t[1..]);
      assert t == [t[0]] + t[1..];
      if t[0] == '_' {
        assert AfterSeparators(t[1..]) == t[1..];
      }
    }
  }

  lemma LetterIsKept(c: char, t: string)
    requires IsAlnum(c) && Kept(t) == t && Collapsed(t) == t
    ensures Kept([c] + t) == [c] + t && Collapsed([c] + t) == [c] + t
  {
    assert ([c] + t)[1..] == t;
  }

  lemma SlugIsUnchanged(t: string)
    requires IsSlug(t)
    ensures Slug(t) == t
  {
    if t != "" {
      TailIsKept(t[1..]);
      LetterIsKept(t[0], t[1..]);
      assert t == [t[0]] + t[1..];
      assert StripLeft(t) == t && StripRight(t) == t;
    }
  }

  lemma SlugifyIsIdempotent(s: string)
    ensures Slug(Slug(s)) == Slug(s)
  {
    SlugIsSlug(s);
    SlugIsUnchanged(Slug(s));
  }

  /** The strings that slugify leaves alone are the slugs; every workspace name is one. */
  lemma FixedPointsAreSlugs(t: string)
    ensures Slug(t) == t <==> IsSlug(t)
    ensures IsWorkspaceName(t) <==> IsSlug(t) && t != "" && IsLower(t[0])
  {
    SlugIsSlug(t);
    if IsSlug(t) {
      SlugIsUnchanged(t);
    }
  }

  /* ---- the three regular expressions as one pass ---- */

  /** Letters and digits in lower case, with an underscore where separators lie between two of them. */
  function OnePass(s: string, started: bool, gap: bool): string {
    if s == "" then ""
    else if IsUpper(s[0]) || IsAlnum(s[0]) then
      (if started && gap then "_" else "") + [LowerChar(s[0])] + OnePass(s[1..], true, false)
    else if IsSeparator(s[0]) then OnePass(s[1..], started, true)
    else OnePass(s[1..], started, gap)
  }

  lemma {:induction false} KeptIsEnough(s: string, started: bool, gap: bool)
    ensures OnePass(Kept(s), started, gap) == OnePass(s, started, gap)
  {
    if s != "" {
      if IsUpper(s[0]) || IsAlnum(s[0]) {
        KeptIsEnough(s[1..], true, false);
      } else {
        KeptIsEnough(s[1..], started, gap || IsSeparator(s[0]));
      }
    }
  }

  lemma {:induction false} StripRightCons(c: char, t: string)
    requires c != '_' || StripRight(t) != ""
    ensures StripRight([c] + t) == [c] + StripRight(t)
    decreases |t|
  {
    var s := [c] + t;
    if t != "" && t[|t| - 1] == '_' {
      assert s[..|s| - 1] == [c] + t[..|t| - 1];
      StripRightCons(c, t[..|t| - 1]);
    }
  }

  lemma {:induction false} SkippedSeparators(k: string, started: bool)
    requires KeptChars(k)
    ensures OnePass(AfterSeparators(k), started, true) == OnePass(k, started, true)
  {
    if k != "" && IsSeparator(k[0]) {
      SkippedSeparators(k[1..], started);
    }
  }

  lemma AfterLetter(k: string, gap: bool)
    requires k != "" && IsAlnum(k[0]) && StripRight(Collapsed(k[1..])) == OnePass(k[1..], true, false)
    ensures StripRight(Collapsed(k)) == [k[0]] + OnePass(k[1..], true, false)
    ensures OnePass(k, true, gap) == (if gap then "_" else "") + StripRight(Collapsed(k))
  {
    StripRightCons(k[0], Collapsed(k[1..]));
    assert "" + [k[0]] == [k[0]];
    assert "_" + ([k[0]] + OnePass(k[1..], true, false)) == "_" + [k[0]] + OnePass(k[1..], true, false);
  }

  /** After the first letter, collapsing and stripping on the right is the pass. */
  lemma {:induction false} CollapsedThenStripped(k: string)
    requires KeptChars(k)
    ensures StripRight(Collapsed(k)) == OnePass(k, true, false)
    decreases |k|
  {
    if k == "" {
    } else if IsSeparator(k[0]) {
      var rest := AfterSeparators(k[1..]);
      AfterSeparatorsFits(k[1..]);
      SkippedSeparators(k[1..], true);
      if rest == "" {
        assert Collapsed(k) == "_" && "_"[..0] == "";
      } else {
        CollapsedThenStripped(rest[1..]);
        AfterLetter(rest, true);
        StripRightCons('_', Collapsed(rest));
      }
    } else {
      CollapsedThenStripped(k[1..]);
      AfterLetter(k, false);
    }
  }

  lemma StrippedBothSides(k: string)
    requires KeptChars(k)
    ensures StripRight(StripLeft(Collapsed(k))) == OnePass(k, false, false)
  {
    var rest := if k != "" && IsSeparator(k[0]) then AfterSeparators(k[1..]) else k;
    if k != "" && IsSeparator(k[0]) {
      AfterSeparatorsFits(k[1..]);
      SkippedSeparators(k[1..], false);
      assert OnePass(k, false, false) == OnePass(rest, false, true);
      assert Collapsed(k)[1..] == Collapsed(rest);
    }
    if rest != "" {
      CollapsedThenStripped(rest[1..]);
      StripRightCons(rest[0], Collapsed(rest[1..]));
    }
  }

  /** Filtering, collapsing and stripping by regular expressions gives what one pass over the string gives. */
  lemma SlugIsOnePass(s: string)
    ensures Slug(s) == OnePass(s, false, false)
  {
    KeptHasKeptChars(s);
    StrippedBothSides(Kept(s));
    KeptIsEnough(s, false, false);
  }

  /** The prefix of to_safe_name is never used: a slug starts with a letter or a digit. */
  lemma SafeNameNeedsNoPrefix(unsafeName: string, typeName: string)
    ensures SafeName(unsafeName, typeName) == if Slug(unsafeName) == "" then typeName else Slug(unsafeName)
  {
    SlugIsSlug(unsafeName);
  }

  /* ---- to_safe_names ---- */

  function LetterFirst(names: seq<string>): seq<string> {
    if names == [] then []
    else
      var rest, value := LetterFirst(names[..|names| - 1]), Slug(names[|names| - 1]);
      if value != "" && IsLower(value[0]) then rest + [value] else rest
  }

  function OtherFirst(names: seq<string>, typeName: string): seq<string> {
    if names == [] then []
    else
      var rest, value := OtherFirst(names[..|names| - 1], typeName), Slug(names[|names| - 1]);
      if value != "" && !IsLower(value[0]) then rest + [typeName + "_" + value] else rest
  }

  function SafeNames(names: seq<string>, typeName: string): seq<string> {
    var values := LetterFirst(names) + OtherFirst(names, typeName);
    if values == [] then [typeName] else values
  }

  lemma {:induction false} TailThenTail(a: string, b: string)
    requires IsWorkspaceTail(a) && IsWorkspaceTail(b)
    ensures IsWorkspaceTail(a + b)
  {
    if a == "" {
      assert a + b == b;
    } else {
      TailThenTail(a[1..], b);
      assert (a + b)[1..] == a[1..] + b;
    }
  }

  lemma {:induction false} DigitsAreTail(d: string)
    requires AllDigits(d)
    ensures IsWorkspaceTail(d)
  {
    if d != "" {
      DigitsAreTail(d[1..]);
    }
  }

  lemma LetterThenTail(c: char, t: string)
    requires IsLower(c) && IsWorkspaceTail(t)
    ensures IsWorkspaceName([c] + t)
  {
    assert ([c] + t)[1..] == t;
  }

  lemma NameThenTail(name: string, b: string)
    requires IsWorkspaceName(name) && IsWorkspaceTail(b)
    ensures IsWorkspaceName(name + b)
  {
    TailThenTail(name[1..], b);
    LetterThenTail(name[0], name[1..] + b);
    assert [name[0]] + (name[1..] + b) == name + b;
  }

  lemma PrefixedSlug(typeName: string, slug: string)
    requires IsWorkspaceName(typeName) && IsSlug(slug) && slug != ""
    ensures IsWorkspaceName(typeName + "_" + slug)
  {
    assert ("_" + slug)[1..] == slug;
    NameThenTail(typeName, "_" + slug);
    assert typeName + ("_" + slug) == typeName + "_" + slug;
  }

  predicate AllNames(names: seq<string>) {
    forall i | 0 <= i < |names| :: IsWorkspaceName(names[i])
  }

  lemma {:induction false} LetterFirstAreNames(names: seq<string>)
    ensures AllNames(LetterFirst(names))
  {
    if names != [] {
      LetterFirstAreNames(names[..|names| - 1]);
      SlugIsSlug(names[|names| - 1]);
    }
  }

  lemma {:induction false} OtherFirstAreNames(names: seq<string>, typeName: string)
    requires IsWorkspaceName(typeName)
    ensures AllNames(OtherFirst(names, typeName))
  {
    if names != [] {
      OtherFirstAreNames(names[..|names| - 1], typeName);
      var value := Slug(names[|names| - 1]);
      SlugIsSlug(names[|names| - 1]);
      if value != "" && !IsLower(value[0]) {
        PrefixedSlug(typeName, value);
      }
    }
  }

  /** There is always a suggestion, and each one matches the pattern of workspace names. */
  lemma SafeNamesAreNames(names: seq<string>, typeName: string)
    requires IsWorkspaceName(typeName)
    ensures SafeNames(names, typeName) != [] && AllNames(SafeNames(names, typeName))
  {
    LetterFirstAreNames(names);
    OtherFirstAreNames(names, typeName);
  }

  /** The slug of a name begins with a letter, or with something else. */
  predicate BeginsWithLetter(name: string, letter: bool) {
    Slug(name) != "" && (letter <==> 'a' <= Slug(name)[0] <= 'z')
  }

  function Count(names: seq<string>, letter: bool): nat {
    if names == [] then 0
    else Count(names[..|names| - 1], letter) + if BeginsWithLetter(names[|names| - 1], letter) then 1 else 0
  }

  lemma {:induction false} LetterPlaces(names: seq<string>, i: nat)
    requires i < |names| && BeginsWithLetter(names[i], true)
    ensures |LetterFirst(names)| == Count(names, true) > Count(names[..i], true)
    ensures LetterFirst(names)[Count(names[..i], true)] == Slug(names[i])
  {
    var n := |names| - 1;
    LetterCount(names);
    if i < n {
      LetterPlaces(names[..n], i);
      assert names[..n][..i] == names[..i];
    } else {
      LetterCount(names[..n]);
    }
  }

  lemma {:induction false} LetterCount(names: seq<string>)
    ensures |LetterFirst(names)| == Count(names, true)
  {
    if names != [] {
      LetterCount(names[..|names| - 1]);
    }
  }

  lemma {:induction false} OtherCount(names: seq<string>, typeName: string)
    ensures |OtherFirst(names, typeName)| == Count(names, false)
  {
    if names != [] {
      OtherCount(names[..|names| - 1], typeName);
    }
  }

  lemma {:induction false} OtherPlaces(names: seq<string>, typeName: string, i: nat)
    requires i < |names| && BeginsWithLetter(names[i], false)
    ensures |OtherFirst(names, typeName)| == Count(names, false) > Count(names[..i], false)
    ensures OtherFirst(names, typeName)[Count(names[..i], false)] == typeName + "_" + Slug(names[i])
  {
    var n := |names| - 1;
    OtherCount(names, typeName);
    if i < n {
      OtherPlaces(names[..n], typeName, i);
      assert names[..n][..i] == names[..i];
    } else {
      OtherCount(names[..n], typeName);
    }
  }

  /** Each slug that begins with a letter is suggested, in the order of the names; after them come the others, in their
      order and with the prefix; nothing else is suggested, unless no slug is left. */
  lemma SuggestionsInOrder(names: seq<string>, typeName: string, i: nat)
    requires i < |names|
    ensures var all, letters, others := SafeNames(names, typeName), Count(names, true), Count(names, false);
      && (letters + others == 0 ==> all == [typeName])
      && (letters + others > 0 ==> |all| == letters + others)
      && (BeginsWithLetter(names[i], true) ==>
            Count(names[..i], true) < letters && all[Count(names[..i], true)] == Slug(names[i]))
      && (BeginsWithLetter(names[i], false) ==>
            Count(names[..i], false) < others
            && all[letters + Count(names[..i], false)] == typeName + "_" + Slug(names[i]))
  {
    LetterCount(names);
    OtherCount(names, typeName);
    if BeginsWithLetter(names[i], true) {
      LetterPlaces(names, i);
    }
    if BeginsWithLetter(names[i], false) {
      OtherPlaces(names, typeName, i);
    }
  }

  method ToSafeNames(names: seq<string>, typeName: string) returns (values: seq<string>)
    ensures values == SafeNames(names, typeName)
  {
    var letter, other := [], [];
    for i := 0 to |names|
      invariant letter == LetterFirst(names[..i]) && other == OtherFirst(names[..i], typeName)
    {
      assert names[..i + 1][..i] == names[..i];
      var value := Slug(names[i]);
      if value != "" {
        if !IsLower(value[0]) {
          other := other + [typeName + "_" + value];
        } else {
          letter := letter + [value];
        }
      }
    }
    assert names[..|names|] == names;
    values := letter + other;
    if values == [] {
      values := [typeName];
    }
  }

  /* ---- the search for a free name ---- */

  datatype Check = Passes | WrongPattern | ReservedRole | GeoServerUser | TooLong

  const RESERVED_ROLE_NAMES := {"ROLE_ADMINISTRATOR", "ROLE_GROUP_ADMIN", "ROLE_AUTHENTICATED", "ROLE_ANONYMOUS"}

  /** What Redis, the database and GeoServer hold at the start of the search. The two modules that check a name come in
      either order. */
  datatype World = World(workspaces: set<string>, geoserverUser: string, lengthFirst: bool)

  function CheckName(w: World, name: string): Check {
    if !IsWorkspaceName(name) then WrongPattern
    else if w.lengthFirst && |name| > 59 then TooLong
    else if name == w.geoserverUser then GeoServerUser
    else if "USER_" + Upper(name) in RESERVED_ROLE_NAMES then ReservedRole
    else if |name| > 59 then TooLong
    else Passes
  }

  /** The search goes on to the next suggestion. */
  predicate Skipped(w: World, name: string) {
    || CheckName(w, name) in {WrongPattern, ReservedRole, GeoServerUser}
    || (CheckName(w, name) == Passes && name in w.workspaces)
  }

  function Candidate(suggestion: string, idx: nat): string {
    if idx > 0 then suggestion + Digits(idx) else suggestion
  }

  lemma CandidateIsName(suggestion: string, idx: nat)
    requires IsWorkspaceName(suggestion)
    ensures IsWorkspaceName(Candidate(suggestion, idx))
  {
    DigitsAreTail(Digits(idx));
    NameThenTail(suggestion, Digits(idx));
  }

  /** The first round tries the suggestion itself, round n the suggestion with n after it. */
  lemma CandidateIsNumbered(suggestion: string, idx: nat)
    ensures idx == 0 ==> Candidate(suggestion, idx) == suggestion
    ensures idx > 0 ==>
      var c := Candidate(suggestion, idx);
      && |c| > |suggestion| && c[..|suggestion|] == suggestion && AllDigits(c[|suggestion|..])
      && Value(c[|suggestion|..]) == idx && c[|suggestion|] != '0'
  {
    if idx > 0 {
      assert Candidate(suggestion, idx)[|suggestion|..] == Digits(idx);
      DigitsHaveValue(idx);
      NoLeadingZero(idx);
    }
  }

  lemma CandidatesDiffer(suggestion: string, i: nat, j: nat)
    requires Candidate(suggestion, i) == Candidate(suggestion, j)
    ensures i == j
  {
    if i > 0 && j > 0 {
      assert Candidate(suggestion, i)[|suggestion|..] == Digits(i);
      assert Candidate(suggestion, j)[|suggestion|..] == Digits(j);
      DigitsAreInjective(i, j);
    }
  }

  /** A candidate is passed over only when it is a workspace or the GeoServer user: error 2 and 35 never come. */
  lemma SkippedIsTaken(w: World, name: string)
    requires IsWorkspaceName(name)
    ensures Skipped(w, name) ==> name in w.workspaces + {w.geoserverUser}
    ensures CheckName(w, name) != WrongPattern && CheckName(w, name) != ReservedRole
  {
    var role := "USER_" + Upper(name);
    assert role[0] == 'U';
    assert forall r | r in RESERVED_ROLE_NAMES :: r[0] == 'R';
  }

  function Candidates(suggestion: string, n: nat): set<string> {
    set k | 0 <= k < n :: Candidate(suggestion, k)
  }

  lemma {:induction false} CandidatesCount(suggestion: string, n: nat)
    ensures |Candidates(suggestion, n)| == n
  {
    if n > 0 {
      CandidatesCount(suggestion, n - 1);
      var last := Candidate(suggestion, n - 1);
      if last in Candidates(suggestion, n - 1) {
        var k :| 0 <= k < n - 1 && last == Candidate(suggestion, k);
        CandidatesDiffer(suggestion, k, n - 1);
      }
      assert Candidates(suggestion, n) == Candidates(suggestion, n - 1) + {last};
    }
  }

  lemma SubsetIsNoLarger(a: set<string>, b: set<string>)
    requires a <= b
    ensures |a| <= |b|
  {
    assert b == a + (b - a);
  }

  /** The pigeonhole argument: n rounds that all passed over the same suggestion need n taken names. */
  lemma RoundsAreBounded(w: World, suggestion: string, n: nat)
    requires IsWorkspaceName(suggestion)
    requires forall k | 0 <= k < n :: Skipped(w, Candidate(suggestion, k))
    ensures n <= |w.workspaces| + 1
  {
    var taken := w.workspaces + {w.geoserverUser};
    forall name | name in Candidates(suggestion, n) ensures name in taken {
      var k :| 0 <= k < n && name == Candidate(suggestion, k);
      CandidateIsName(suggestion, k);
      SkippedIsTaken(w, name);
    }
    CandidatesCount(suggestion, n);
    SubsetIsNoLarger(Candidates(suggestion, n), taken);
    SubsetIsNoLarger(taken - w.workspaces, {w.geoserverUser});
    assert taken == w.workspaces + (taken - w.workspaces);
  }

  datatype Outcome = NoneFree | Reserved(name: string) | Raised

  /** The candidates before suggestion i of round idx were all passed over. */
  predicate SkippedBefore(w: World, suggestions: seq<string>, idx: nat, i: nat)
    requires i <= |suggestions|
  {
    && (forall k, j | 0 <= k < idx && 0 <= j < |suggestions| :: Skipped(w, Candidate(suggestions[j], k)))
    && (forall j | 0 <= j < i :: Skipped(w, Candidate(suggestions[j], idx)))
  }

  /** The candidate ends the search: it is reserved, unless it is too long. */
  predicate Ends(w: World, name: string, outcome: Outcome) {
    && IsWorkspaceName(name) && !Skipped(w, name)
    && outcome == (if |name| <= 59 then Reserved(name) else Raised)
    && (|name| <= 59 ==> name !in w.workspaces && name != w.geoserverUser)
  }

  method TryCandidate(w: World, candidate: string) returns (outcome: Outcome)
    requires IsWorkspaceName(candidate)
    ensures if outcome == NoneFree then Skipped(w, candidate) else Ends(w, candidate, outcome)
  {
    SkippedIsTaken(w, candidate);
    var check := CheckName(w, candidate);
    if check == TooLong {
      return Raised;
    }
    if check == Passes && candidate !in w.workspaces {
      return Reserved(candidate);
    }
    return NoneFree;
  }

  method TryRound(w: World, suggestions: seq<string>, idx: nat) returns (outcome: Outcome, ghost i: nat)
    requires AllNames(suggestions)
    ensures i <= |suggestions| && forall j | 0 <= j < i :: Skipped(w, Candidate(suggestions[j], idx))
    ensures if outcome == NoneFree then i == |suggestions|
            else i < |suggestions| && Ends(w, Candidate(suggestions[i], idx), outcome)
  {
    for j := 0 to |suggestions|
      invariant forall k | 0 <= k < j :: Skipped(w, Candidate(suggestions[k], idx))
    {
      CandidateIsName(suggestions[j], idx);
      outcome := TryCandidate(w, Candidate(suggestions[j], idx));
      if outcome != NoneFree {
        return outcome, j;
      }
    }
    return NoneFree, |suggestions|;
  }

  lemma SuggestionsAreNames(names: seq<string>)
    ensures SafeNames(names, "user") != [] && AllNames(SafeNames(names, "user"))
  {
    DigitsAreTail("");
    assert IsWorkspaceTail("r") && IsWorkspaceTail("er") && IsWorkspaceTail("ser");
    SafeNamesAreNames(names, "user");
  }

  lemma SkippedRoundsAreBounded(w: World, suggestions: seq<string>, n: nat)
    requires suggestions != [] && AllNames(suggestions) && SkippedBefore(w, suggestions, n, 0)
    ensures n < |w.workspaces| + 2
  {
    assert forall k | 0 <= k < n :: Skipped(w, Candidate(suggestions[0], k));
    RoundsAreBounded(w, suggestions[0], n);
  }

  lemma NextRound(w: World, suggestions: seq<string>, n: nat)
    requires SkippedBefore(w, suggestions, n, |suggestions|)
    ensures SkippedBefore(w, suggestions, n + 1, 0)
  {}

  method Search(w: World, suggestions: seq<string>) returns (outcome: Outcome, ghost idx: nat, ghost i: nat)
    requires suggestions != [] && AllNames(suggestions)
    ensures outcome != NoneFree && idx < |w.workspaces| + 2
    ensures i < |suggestions| && SkippedBefore(w, suggestions, idx, i)
    ensures Ends(w, Candidate(suggestions[i], idx), outcome)
  {
    var n := 0;
    while true
      invariant SkippedBefore(w, suggestions, n, 0)
      decreases |w.workspaces| + 2 - n
    {
      SkippedRoundsAreBounded(w, suggestions, n);
      outcome, i := TryRound(w, suggestions, n);
      if outcome != NoneFree {
        return outcome, n, i;
      }
      NextRound(w, suggestions, n);
      n := n + 1;
    }
  }

  /** Within |workspaces| + 2 rounds the search takes the first candidate that is neither a workspace nor the GeoServer
      user, and raises error 56 when that one has more than 59 characters. */
  method Reserve(names: seq<string>, w: World) returns (outcome: Outcome, ghost idx: nat, ghost i: nat)
    ensures outcome != NoneFree && idx < |w.workspaces| + 2
    ensures var suggestions := SafeNames(names, "user");
      && i < |suggestions| && SkippedBefore(w, suggestions, idx, i)
      && Ends(w, Candidate(suggestions[i], idx), outcome)
  {
    SuggestionsAreNames(names);
    var suggestions := ToSafeNames(names, "user");
    outcome, idx, i := Search(w, suggestions);
  }
}
