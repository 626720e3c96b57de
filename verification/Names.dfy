/** User, workspace and role names, and the comma-joined lists in which the database returns them. */
module Names {

  predicate IsLower(c: char) {
    'a' <= c <= 'z'
  }

  predicate IsUpper(c: char) {
    'A' <= c <= 'Z'
  }

  predicate IsDigit(c: char) {
    '0' <= c <= '9'
  }

  /** `[a-z0-9]*(?:_[a-z0-9]+)*` */
  predicate IsWorkspaceTail(s: string) {
    s == ""
    || ((IsLower(s[0]) || IsDigit(s[0])) && IsWorkspaceTail(s[1..]))
    || (s[0] == '_' && |s| > 1 && (IsLower(s[1]) || IsDigit(s[1])) && IsWorkspaceTail(s[1..]))
  }

  /** WORKSPACE_NAME_PATTERN: `[a-z][a-z0-9]*(?:_[a-z0-9]+)*` */
  predicate IsWorkspaceName(s: string) {
    s != "" && IsLower(s[0]) && IsWorkspaceTail(s[1..])
  }

  /** `[A-Z0-9]*(?:_[A-Z0-9]+)*` */
  predicate IsRoleTail(s: string) {
    s == ""
    || ((IsUpper(s[0]) || IsDigit(s[0])) && IsRoleTail(s[1..]))
    || (s[0] == '_' && |s| > 1 && (IsUpper(s[1]) || IsDigit(s[1])) && IsRoleTail(s[1..]))
  }

  /** ROLE_NAME_PATTERN: `(?!.{65,})[A-Z][A-Z0-9]*(?:_[A-Z0-9]+)*` */
  predicate IsRoleName(s: string) {
    0 < |s| <= 64 && IsUpper(s[0]) && IsRoleTail(s[1..])
  }

  /** `is_user`: some letter is lower-case. */
  predicate IsUser(name: string) {
    exists i | 0 <= i < |name| :: IsLower(name[i])
  }

  lemma {:induction false} WorkspaceTailChars(s: string)
    requires IsWorkspaceTail(s)
    ensures forall i | 0 <= i < |s| :: IsLower(s[i]) || IsDigit(s[i]) || s[i] == '_'
  {
    if s != "" {
      WorkspaceTailChars(s[1..]);
      assert forall i | 1 <= i < |s| :: s[i] == s[1..][i - 1];
    }
  }

  lemma {:induction false} RoleTailChars(s: string)
    requires IsRoleTail(s)
    ensures forall i | 0 <= i < |s| :: IsUpper(s[i]) || IsDigit(s[i]) || s[i] == '_'
  {
    if s != "" {
      RoleTailChars(s[1..]);
      assert forall i | 1 <= i < |s| :: s[i] == s[1..][i - 1];
    }
  }

  lemma WorkspaceNameIsUser(s: string)
    requires IsWorkspaceName(s)
    ensures IsUser(s) && ',' !in s
    ensures forall i | 0 <= i < |s| :: IsLower(s[i]) || IsDigit(s[i]) || s[i] == '_'
  {
    WorkspaceTailChars(s[1..]);
    assert forall i | 1 <= i < |s| :: s[i] == s[1..][i - 1];
    assert IsLower(s[0]);
  }

  lemma RoleNameIsNoUser(s: string)
    requires IsRoleName(s)
    ensures !IsUser(s) && ',' !in s
  {
    RoleTailChars(s[1..]);
    assert forall i | 1 <= i < |s| :: s[i] == s[1..][i - 1];
  }

  function UpperChar(c: char): char {
    if IsLower(c) then c - 'a' + 'A' else c
  }

  function Upper(s: string): string {
    seq(|s|, i requires 0 <= i < |s| => UpperChar(s[i]))
  }

  lemma UpperIsInjective(a: string, b: string)
    requires IsWorkspaceName(a) && IsWorkspaceName(b) && Upper(a) == Upper(b)
    ensures a == b
  {
    WorkspaceNameIsUser(a);
    WorkspaceNameIsUser(b);
    assert |Upper(a)| == |a| && |Upper(b)| == |b|;
    forall i | 0 <= i < |a|
      ensures a[i] == b[i]
    {
      assert Upper(a)[i] == Upper(b)[i];
    }
  }

  lemma {:induction false} RoleTailAfterWord(word: string, rest: string)
    requires (forall i | 0 <= i < |word| :: IsUpper(word[i])) && IsRoleTail(rest)
    ensures IsRoleTail(word + rest)
  {
    if word == "" {
      assert word + rest == rest;
    } else {
      RoleTailAfterWord(word[1..], rest);
      assert (word + rest)[1..] == word[1..] + rest;
    }
  }

  function Elements(names: seq<string>): set<string> {
    set n | n in names
  }

  /* ---- comma-joined lists ---- */

  /** SQL `string_agg(name, ',')` of at least one name. */
  function Joined(names: seq<string>): string
    requires names != []
  {
    if |names| == 1 then names[0] else names[0] + "," + Joined(names[1..])
  }

  /** SQL `rtrim(s, ',')`. */
  function Trimmed(s: string): string {
    if s != "" && s[|s| - 1] == ',' then Trimmed(s[..|s| - 1]) else s
  }

  /** Python `s.split(',')`. */
  function Split(s: string): (parts: seq<string>)
    ensures parts != []
  {
    if s == "" then [""]
    else if s[0] == ',' then [""] + Split(s[1..])
    else var parts := Split(s[1..]); [[s[0]] + parts[0]] + parts[1..]
  }

  /** The SELECT of read_users_roles: owner, stored names and EVERYONE, each with a comma if present. */
  function Rendered(owner: seq<string>, stored: seq<string>, everyone: bool): string
    requires |owner| <= 1
  {
    Trimmed((if owner == [] then "" else owner[0] + ",")
            + (if stored == [] then "" else Joined(stored) + ",")
            + (if everyone then "EVERYONE" + "," else ""))
  }

  predicate Plain(name: string) {
    name != "" && ',' !in name
  }

  lemma {:induction false} SplitPlain(name: string)
    requires ',' !in name
    ensures Split(name) == [name]
  {
    if name != "" {
      SplitPlain(name[1..]);
      assert [name[0]] + name[1..] == name;
    }
  }

  lemma {:induction false} SplitHead(name: string, rest: string)
    requires ',' !in name
    ensures Split(name + "," + rest) == [name] + Split(rest)
  {
    var s := name + "," + rest;
    if name == "" {
      assert s[1..] == rest;
    } else {
      SplitHead(name[1..], rest);
      assert s[1..] == name[1..] + "," + rest;
      assert [name[0]] + name[1..] == name;
    }
  }

  lemma {:induction false} SplitJoined(names: seq<string>)
    requires names != [] && forall n | n in names :: Plain(n)
    ensures Split(Joined(names)) == names
  {
    assert Plain(names[0]) by { assert names[0] in names; }
    if |names| == 1 {
      SplitPlain(names[0]);
    } else {
      SplitJoined(names[1..]);
      SplitHead(names[0], Joined(names[1..]));
    }
  }

  lemma {:induction false} JoinedAppends(a: seq<string>, b: seq<string>)
    requires a != [] && b != []
    ensures Joined(a + b) == Joined(a) + "," + Joined(b)
  {
    if |a| == 1 {
      assert (a + b)[1..] == b;
    } else {
      JoinedAppends(a[1..], b);
      assert (a + b)[1..] == a[1..] + b;
    }
  }

  lemma {:induction false} JoinedEndsPlain(names: seq<string>)
    requires names != [] && forall n | n in names :: Plain(n)
    ensures Joined(names) != "" && Joined(names)[|Joined(names)| - 1] != ','
  {
    assert Plain(names[0]) by { assert names[0] in names; }
    if |names| > 1 {
      JoinedEndsPlain(names[1..]);
    }
  }

  lemma TrimmedJoined(names: seq<string>)
    requires names != [] && forall n | n in names :: Plain(n)
    ensures Trimmed(Joined(names) + ",") == Joined(names)
  {
    JoinedEndsPlain(names);
    var s := Joined(names) + ",";
    assert s[..|s| - 1] == Joined(names);
  }

  function IfEveryone(everyone: bool): seq<string> {
    if everyone then ["EVERYONE"] else []
  }

  lemma RenderedIsJoined(owner: seq<string>, stored: seq<string>, everyone: bool)
    requires |owner| <= 1 && owner + stored + IfEveryone(everyone) != []
    ensures Rendered(owner, stored, everyone) == Trimmed(Joined(owner + stored + IfEveryone(everyone)) + ",")
  {
    JoinedPair(owner, stored);
    JoinedPair(owner + stored, IfEveryone(everyone));
    assert Commas(owner) == if owner == [] then "" else owner[0] + ",";
    assert Commas(IfEveryone(everyone)) == if everyone then "EVERYONE" + "," else "";
  }

  /** The names of a list, each followed by a comma. */
  function Commas(names: seq<string>): string {
    if names == [] then "" else Joined(names) + ","
  }

  lemma JoinedPair(a: seq<string>, b: seq<string>)
    ensures Commas(a + b) == Commas(a) + Commas(b)
  {
    if a == [] {
      assert a + b == b;
    } else if b == [] {
      assert a + b == a;
    } else {
      JoinedAppends(a, b);
    }
  }

  /** Reading a list back gives the names that were put in, in order. An empty list would come back as one
      empty name. */
  lemma ReadBack(owner: seq<string>, stored: seq<string>, everyone: bool)
    requires |owner| <= 1 && forall n | n in owner + stored :: Plain(n)
    ensures var all := owner + stored + IfEveryone(everyone);
      Split(Rendered(owner, stored, everyone)) == if all == [] then [""] else all
  {
    var all := owner + stored + IfEveryone(everyone);
    if all != [] {
      RenderedIsJoined(owner, stored, everyone);
      TrimmedJoined(all);
      SplitJoined(all);
    }
  }

  /** Upper-casing moves small letters to capital ones and leaves all else. */
  lemma UpperMeans(s: string, i: nat)
    requires i < |s|
    ensures |Upper(s)| == |s|
    ensures 'a' <= s[i] <= 'z' ==> Upper(s)[i] as int == s[i] as int - 32
    ensures !('a' <= s[i] <= 'z') ==> Upper(s)[i] == s[i]
  {}
}
