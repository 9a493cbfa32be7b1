/** The two-letter avatar text shown beside a comment's author: the
    fallback chain first+last name, first name, username before `@`,
    and finally "UN". */
module Initials {
  import opened Wrappers

  /** JavaScript truthiness of an optional string: undefined and "" are
      both falsy. */
  predicate Present(s: Option<string>) {
    s.Some? && s.value != ""
  }

  /** `toUpperCase` of one character, for the Basic Latin and Latin-1
      letters. Characters outside those blocks are kept as they are. */
  function UpperChar(c: char): (u: char)
    ensures 'a' <= c <= 'z' ==> 'A' <= u <= 'Z' && u as int == c as int - 32
    ensures 'à' <= c <= 'þ' && c != '÷' ==> 'À' <= u <= 'Þ' && u as int == c as int - 32
    ensures c == 'µ' ==> u == 'Μ'
    ensures c == 'ÿ' ==> u == 'Ÿ'
    ensures !('a' <= c <= 'z') && !('à' <= c <= 'þ' && c != '÷') && c != 'µ' && c != 'ÿ' ==> u == c
  {
    if 'a' <= c <= 'z' then (c as int - 32) as char
    else if c == 'µ' then 'Μ'
    else if 'à' <= c <= 'þ' && c != '÷' then (c as int - 32) as char
    else if c == 'ÿ' then 'Ÿ'
    else c
  }

  /** Upper-casing a character twice is upper-casing it once. */
  lemma UpperCharIdempotent(c: char)
    ensures UpperChar(UpperChar(c)) == UpperChar(c)
  {
  }

  function Upper(s: string): (r: string)
    ensures |r| == |s| && forall i :: 0 <= i < |s| ==> r[i] == UpperChar(s[i])
  {
    seq(|s|, i requires 0 <= i < |s| => UpperChar(s[i]))
  }

  /** `s.split('@')[0]`: everything before the first `@`, or all of `s`. */
  function BeforeAt(s: string): (r: string)
    ensures |r| <= |s| && r == s[..|r|]
    ensures forall c :: c in r ==> c != '@'
    ensures |r| == |s| || s[|r|] == '@'
  {
    if s == [] || s[0] == '@' then [] else [s[0]] + BeforeAt(s[1..])
  }

  /** `s.substring(0, n)`. */
  function Take(s: string, n: nat): (r: string)
    ensures |r| == if |s| < n then |s| else n
    ensures r == s[..|r|]
  {
    if |s| < n then s else s[..n]
  }

  /** The initials of an author. */
  function UserInitials(firstName: Option<string>, lastName: Option<string>,
                        username: Option<string>): (r: string)
    ensures |r| <= 2
    ensures Present(firstName) && Present(lastName) ==>
              r == [UpperChar(firstName.value[0]), UpperChar(lastName.value[0])]
    ensures Present(firstName) && !Present(lastName) ==> r == [UpperChar(firstName.value[0])]
    ensures !Present(firstName) && Present(username) ==>
              r == Upper(Take(BeforeAt(username.value), 2))
    ensures !Present(firstName) && !Present(username) ==> r == "UN"
  {
    if Present(firstName) && Present(lastName) then
      Upper([firstName.value[0], lastName.value[0]])
    else if Present(firstName) then
      Upper([firstName.value[0]])
    else if Present(username) then
      Upper(Take(BeforeAt(username.value), 2))
    else
      "UN"
  }

  /** The initials are already upper case: upper-casing them again changes
      nothing. */
  lemma InitialsAreUpperCase(firstName: Option<string>, lastName: Option<string>,
                             username: Option<string>)
    ensures var r := UserInitials(firstName, lastName, username);
            Upper(r) == r
  {
    var r := UserInitials(firstName, lastName, username);
    forall i | 0 <= i < |r|
      ensures UpperChar(r[i]) == r[i]
    {
      UpperCharIdempotent(r[i]);
    }
  }

  /** Without a first name, a last name makes no difference. */
  lemma LastNameAloneIgnored(firstName: Option<string>, last1: Option<string>,
                             last2: Option<string>, username: Option<string>)
    requires !Present(firstName)
    ensures UserInitials(firstName, last1, username) == UserInitials(firstName, last2, username)
  {
  }

  /** An empty string is treated as a missing one, in every argument. */
  lemma EmptyMeansAbsent(firstName: Option<string>, lastName: Option<string>,
                         username: Option<string>)
    ensures UserInitials(Some(""), lastName, username) == UserInitials(None, lastName, username)
    ensures UserInitials(firstName, Some(""), username) == UserInitials(firstName, None, username)
    ensures UserInitials(firstName, lastName, Some("")) == UserInitials(firstName, lastName, None)
  {
  }

  /** A username that starts with `@` yields the empty string, not the
      "UN" fallback. */
  lemma {:induction false} AtUsernameYieldsEmpty(firstName: Option<string>, lastName: Option<string>,
                                                 username: string)
    requires !Present(firstName)
    requires username != [] && username[0] == '@'
    ensures UserInitials(firstName, lastName, Some(username)) == ""
  {
    assert BeforeAt(username) == [];
  }

  /** The part before the first `@` of `user@rest` is `user`. */
  lemma {:induction false} BeforeAtOfAddress(user: string, rest: string)
    requires forall c :: c in user ==> c != '@'
    ensures BeforeAt(user + "@" + rest) == user
    decreases |user|
  {
    var s := user + "@" + rest;
    if user != [] {
      assert s[0] == user[0] && user[0] in user;
      assert s[1..] == user[1..] + "@" + rest;
      assert forall c :: c in user[1..] ==> c in user;
      BeforeAtOfAddress(user[1..], rest);
    }
  }

  /** The username branch takes the first two characters before the `@`
      (fewer when that part is shorter), each upper-cased. */
  lemma UsernameInitials(user: string, domain: string)
    requires forall c :: c in user ==> c != '@'
    ensures UserInitials(None, None, Some(user + "@" + domain)) ==
            Upper(if |user| < 2 then user else user[..2])
  {
    BeforeAtOfAddress(user, domain);
  }
}
