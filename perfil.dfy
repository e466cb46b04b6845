/**
 * The profile page: the display name, the avatar initials and the "Nome Completo" row.
 * Absent fields are the empty string, as on the profile card; upper-casing is the ASCII
 * part of `toUpperCase`.
 */
module Perfil {
  import opened Text
  import UserProfile

  /** `displayName`: with no full name, the e-mail's local part, or 'Usuário' when that is empty. */
  function DisplayName(firstName: string, lastName: string, email: string): (r: string)
    ensures r != ""
    ensures firstName != "" && lastName != "" ==> r == firstName + " " + lastName
    ensures !(firstName != "" && lastName != "") && LocalPart(email) != "" ==> r == LocalPart(email)
    ensures !(firstName != "" && lastName != "") && LocalPart(email) == "" ==> r == "Usuário"
  {
    if firstName != "" && lastName != "" then firstName + " " + lastName
    else if LocalPart(email) != "" then LocalPart(email)
    else "Usuário"
  }

  /** `profile?.first_name?.[0] || ''`: the first character, or nothing. */
  function FirstChar(s: string): (r: string)
    ensures |r| <= 1
    ensures s != "" ==> r == [s[0]]
  {
    if s == "" then "" else [s[0]]
  }

  /** `` `${first}${last}`.trim() ``: the first characters of the names present, trimmed. */
  function FromName(firstName: string, lastName: string): (r: string)
    ensures |r| <= 2
  {
    var both := FirstChar(firstName) + FirstChar(lastName);
    assert |TrimEnd(TrimStart(both))| <= |TrimStart(both)| <= |both|;
    Trim(both)
  }

  /** `(user?.email?.split('@')[0] || 'U').slice(0, 2)`. */
  function Username(email: string): (r: string)
    ensures 1 <= |r| <= 2
    ensures LocalPart(email) == "" ==> r == "U"
    ensures LocalPart(email) != "" ==> |r| <= |LocalPart(email)| && r == LocalPart(email)[..|r|]
    ensures LocalPart(email) != "" ==> |r| == (if |LocalPart(email)| < 2 then |LocalPart(email)| else 2)
  {
    var username := if LocalPart(email) != "" then LocalPart(email) else "U";
    username[..if |username| < 2 then |username| else 2]
  }

  /**
   * `initials`: the trimmed first letters of whichever names exist, upper-cased; without any,
   * the first two characters of the e-mail's local part (or 'U'), upper-cased.
   */
  function Initials(firstName: string, lastName: string, email: string): (r: string)
    ensures 1 <= |r| <= 2
    ensures forall i :: 0 <= i < |r| ==> !('a' <= r[i] <= 'z')
    ensures FromName(firstName, lastName) != "" ==> r == ToUpper(FromName(firstName, lastName))
    ensures FromName(firstName, lastName) == "" ==> r == ToUpper(Username(email))
  {
    var fromName := FromName(firstName, lastName);
    if fromName != "" then ToUpper(fromName) else ToUpper(Username(email))
  }

  /** The "Nome Completo" row. */
  function FullNameRow(firstName: string, lastName: string): (r: string)
    ensures firstName != "" && lastName != "" ==> r == firstName + " " + lastName
    ensures !(firstName != "" && lastName != "") ==> r == "Não informado"
  {
    if firstName != "" && lastName != "" then firstName + " " + lastName else "Não informado"
  }

  /** One name is enough for initials here, while the profile card needs both. */
  lemma OneNameIsEnough(firstName: string, email: string)
    requires firstName != "" && !IsJsSpace(firstName[0])
    ensures Initials(firstName, "", email) == [UpperChar(firstName[0])]
  {
    var c := [firstName[0]];
    assert FromName(firstName, "") == c by {
      assert FirstChar(firstName) + FirstChar("") == c;
      VisibleEndsTrimNothing(c);
    }
    assert ToUpper(c)[0] == UpperChar(firstName[0]);
  }

  /** A string that starts and ends with visible characters is its own trim. */
  lemma VisibleEndsTrimNothing(s: string)
    requires s != [] && !IsJsSpace(s[0]) && !IsJsSpace(s[|s| - 1])
    ensures Trim(s) == s
  {
    TrimStartDropsSpaces(s);
    TrimEndDropsSpaces(TrimStart(s));
  }

  /** With both names starting with a visible character, the page and the profile card show the same initials. */
  lemma InitialsAgreeWithCard(firstName: string, lastName: string, email: string)
    requires firstName != "" && lastName != ""
    requires !IsJsSpace(firstName[0]) && !IsJsSpace(lastName[0])
    ensures Initials(firstName, lastName, email) == UserProfile.Initials(firstName, lastName, email)
  {
    var both := [firstName[0], lastName[0]];
    assert FirstChar(firstName) + FirstChar(lastName) == both;
    assert FromName(firstName, lastName) == both by {
      VisibleEndsTrimNothing(both);
    }
  }

  /**
   * The page and the card show the same name except for an e-mail that starts with '@':
   * the card then shows an empty name and the page shows 'Usuário'.
   */
  lemma DisplayNamesAgree(firstName: string, lastName: string, email: string)
    ensures DisplayName(firstName, lastName, email) != UserProfile.DisplayName(firstName, lastName, email) <==>
      !(firstName != "" && lastName != "") && email != "" && LocalPart(email) == ""
  {
    if email == "" {
      assert LocalPart(email) == "";
    }
  }
}
