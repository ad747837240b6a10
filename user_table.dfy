/**
 * The two computations of the admin user table (src/components/admin/user-table.tsx): the
 * search-and-role filter behind the rows shown, and the avatar initials of a name.
 */
module UserTable {
  import opened Schema
  import opened Seqs
  import opened Text

  /** The role selector: every role, or one role. */
  datatype RoleFilter = AllRoles | OnlyRole(role: Role)

  /** Name or e-mail contains the search term, ignoring ASCII case. */
  predicate MatchesSearch(u: User, searchTerm: string) {
    Contains(Lower(u.name), Lower(searchTerm)) || Contains(Lower(u.email), Lower(searchTerm))
  }

  predicate MatchesRole(u: User, roleFilter: RoleFilter) {
    roleFilter.AllRoles? || u.role == roleFilter.role
  }

  /** `filteredUsers`. */
  function FilteredUsers(users: seq<User>, searchTerm: string, roleFilter: RoleFilter): (r: seq<User>)
    ensures IsSubsequence(r, users)
    ensures forall i :: 0 <= i < |r| ==>
              && r[i] in users
              && (Contains(Lower(r[i].name), Lower(searchTerm)) || Contains(Lower(r[i].email), Lower(searchTerm)))
              && (roleFilter == AllRoles || r[i].role == roleFilter.role)
    ensures forall i :: (&& 0 <= i < |users|
                         && (Contains(Lower(users[i].name), Lower(searchTerm)) || Contains(Lower(users[i].email), Lower(searchTerm)))
                         && (roleFilter == AllRoles || users[i].role == roleFilter.role))
                        ==> users[i] in r
    ensures |r| <= |users|
  {
    Filter((u: User) => MatchesSearch(u, searchTerm) && MatchesRole(u, roleFilter), users)
  }

  /** With an empty search term and every role selected, the table shows every user. */
  lemma {:induction false} NoFilterShowsAll(users: seq<User>)
    ensures FilteredUsers(users, "", AllRoles) == users
  {
    forall u | u in users ensures MatchesSearch(u, "") && MatchesRole(u, AllRoles) {
      ContainsEmpty(Lower(u.name));
      assert Lower("") == "";
    }
    FilterKeepsAll((u: User) => MatchesSearch(u, "") && MatchesRole(u, AllRoles), users);
  }

  /** `s.split(" ")`: the pieces between single spaces; "" gives [""], and adjacent spaces give empty pieces. */
  function SplitOnSpace(s: string): (words: seq<string>)
    ensures |words| >= 1
    ensures forall i, j :: 0 <= i < |words| && 0 <= j < |words[i]| ==> words[i][j] != ' '
  {
    if s == [] then [""]
    else if s[0] == ' ' then [""] + SplitOnSpace(s[1..])
    else
      var rest := SplitOnSpace(s[1..]);
      [[s[0]] + rest[0]] + rest[1..]
  }

  /** Joining the pieces back with " " gives the original string. */
  lemma {:induction false} SplitJoinRoundTrip(s: string)
    ensures Join(SplitOnSpace(s), " ") == s
  {
    if s != [] {
      var rest := SplitOnSpace(s[1..]);
      SplitJoinRoundTrip(s[1..]);
      if s[0] == ' ' {
        JoinAfterEmpty(rest, " ");
      } else {
        JoinGlued(s[0], rest, " ");
      }
      assert s == [s[0]] + s[1..];
    }
  }

  /** A leading empty piece contributes only its separator. */
  lemma JoinAfterEmpty(ws: seq<string>, sep: string)
    requires ws != []
    ensures Join([""] + ws, sep) == sep + Join(ws, sep)
  {
    assert ([""] + ws)[1..] == ws;
  }

  /** Prefixing a character to the first piece prefixes it to the joined string. */
  lemma JoinGlued(c: char, ws: seq<string>, sep: string)
    requires ws != []
    ensures Join([[c] + ws[0]] + ws[1..], sep) == [c] + Join(ws, sep)
  {
    var glued := [[c] + ws[0]] + ws[1..];
    assert glued[1..] == ws[1..];
    if |ws| > 1 {
      assert [c] + ws[0] + sep + Join(ws[1..], sep) == [c] + (ws[0] + sep + Join(ws[1..], sep));
    }
  }

  /** `.map(n => n[0]).join("")`: the first character of each piece; an empty piece contributes nothing. */
  function FirstChars(words: seq<string>): string {
    if words == [] then ""
    else (if words[0] == "" then "" else [words[0][0]]) + FirstChars(words[1..])
  }

  /**
   * Independent reading of the same thing: the characters that are not spaces and stand at the
   * start of `s` or right after a space. `atStart` says the previous character was a space.
   */
  function WordStarts(s: string, atStart: bool): string {
    if s == [] then ""
    else if s[0] == ' ' then WordStarts(s[1..], true)
    else (if atStart then [s[0]] else "") + WordStarts(s[1..], false)
  }

  /** The first characters of the split pieces are exactly the word starts of the string. */
  lemma {:induction false} FirstCharsAreWordStarts(s: string)
    ensures FirstChars(SplitOnSpace(s)) == WordStarts(s, true)
    ensures FirstChars(SplitOnSpace(s)[1..]) == WordStarts(s, false)
  {
    if s != [] {
      FirstCharsAreWordStarts(s[1..]);
      var rest := SplitOnSpace(s[1..]);
      var words := SplitOnSpace(s);
      if s[0] == ' ' {
        assert words == [""] + rest;
        assert words[1..] == rest;
      } else {
        assert words == [[s[0]] + rest[0]] + rest[1..];
        assert words[1..] == rest[1..];
      }
    }
  }

  /** `getInitials`: first characters of the space-separated words, upper-cased, at most two. */
  function GetInitials(name: string): (r: string)
    ensures |r| <= 2
    ensures forall i :: 0 <= i < |r| ==> !IsAsciiLower(r[i])
    ensures var starts := WordStarts(name, true);
            r == Upper(starts[..if |starts| < 2 then |starts| else 2])
  {
    var letters := Upper(FirstChars(SplitOnSpace(name)));
    FirstCharsAreWordStarts(name);
    letters[..if |letters| < 2 then |letters| else 2]
  }

  /** An empty name, or one made only of spaces, has no initials. */
  lemma {:induction false} BlankNameNoInitials(name: string)
    requires forall i :: 0 <= i < |name| ==> name[i] == ' '
    ensures GetInitials(name) == ""
  {
    NoWordStartsInBlank(name, true);
  }

  lemma {:induction false} NoWordStartsInBlank(s: string, atStart: bool)
    requires forall i :: 0 <= i < |s| ==> s[i] == ' '
    ensures WordStarts(s, atStart) == ""
  {
    if s != [] {
      NoWordStartsInBlank(s[1..], true);
    }
  }

  /** A name of two space-free words gives both first letters, upper-cased. */
  lemma TwoWordInitials(first: string, last: string)
    requires first != [] && last != []
    requires forall i :: 0 <= i < |first| ==> first[i] != ' '
    requires forall i :: 0 <= i < |last| ==> last[i] != ' '
    ensures GetInitials(first + " " + last) == [UpperChar(first[0]), UpperChar(last[0])]
  {
    var name := first + " " + last;
    WordStartsSkipWord(first[1..], last);
    NoWordStartsInsideWord(last[1..]);
    assert name[1..] == first[1..] + " " + last;
    assert WordStarts(name, true) == [first[0]] + WordStarts(name[1..], false);
    assert WordStarts(" " + last, false) == WordStarts(last, true);
    assert last == [last[0]] + last[1..];
    assert WordStarts(last, true) == [last[0]] + WordStarts(last[1..], false);
  }

  /** Inside a word nothing starts; the next word after the space does. */
  lemma {:induction false} WordStartsSkipWord(rest: string, next: string)
    requires forall i :: 0 <= i < |rest| ==> rest[i] != ' '
    ensures WordStarts(rest + " " + next, false) == WordStarts(" " + next, false)
  {
    if rest != [] {
      WordStartsSkipWord(rest[1..], next);
      assert (rest + " " + next)[1..] == rest[1..] + " " + next;
    }
  }

  lemma {:induction false} NoWordStartsInsideWord(s: string)
    requires forall i :: 0 <= i < |s| ==> s[i] != ' '
    ensures WordStarts(s, false) == ""
  {
    if s != [] {
      NoWordStartsInsideWord(s[1..]);
    }
  }
}
