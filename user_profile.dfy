/**
 * The profile card: the avatar initials, the name shown under it and the onboarding
 * progress. An absent profile, first name, last name or e-mail is the empty string, since
 * every use of them is a truthiness test; upper-casing is the ASCII part of `toUpperCase`.
 */
module UserProfile {
  import opened Wrappers
  import opened Text

  /** `getUserInitials`. */
  function Initials(firstName: string, lastName: string, email: string): (r: string)
    ensures 1 <= |r| <= 2
    ensures forall i :: 0 <= i < |r| ==> !('a' <= r[i] <= 'z')
    ensures firstName != "" && lastName != "" ==> r == [UpperChar(firstName[0]), UpperChar(lastName[0])]
    ensures !(firstName != "" && lastName != "") && email != "" ==> r == [UpperChar(email[0])]
    ensures !(firstName != "" && lastName != "") && email == "" ==> r == "U"
  {
    if firstName != "" && lastName != "" then ToUpper([firstName[0], lastName[0]])
    else if email != "" then ToUpper([email[0]])
    else "U"
  }

  /** `getDisplayName`: with no full name, the e-mail's text before the first '@', which may be empty. */
  function DisplayName(firstName: string, lastName: string, email: string): (r: string)
    ensures firstName != "" && lastName != "" ==> r == firstName + " " + lastName
    ensures !(firstName != "" && lastName != "") && email != "" ==> r == LocalPart(email) && '@' !in r
    ensures !(firstName != "" && lastName != "") && email == "" ==> r == "Usuário"
  {
    if firstName != "" && lastName != "" then firstName + " " + lastName
    else if email != "" then LocalPart(email)
    else "Usuário"
  }

  /** The four onboarding flags of a profile. */
  datatype Onboarding = Onboarding(accountTypeCompleted: bool, setupCompleted: bool, chartsCompleted: bool, completed: bool)

  function Bit(b: bool): nat {
    if b then 1 else 0
  }

  /** How many of the four steps are done. */
  function CompletedSteps(o: Onboarding): (n: nat)
    ensures n <= 4
  {
    Bit(o.accountTypeCompleted) + Bit(o.setupCompleted) + Bit(o.chartsCompleted) + Bit(o.completed)
  }

  /**
   * `getOnboardingStatus`: 0 without a profile, otherwise the percentage of the four steps
   * done, counted one flag at a time; `(completed / 4) * 100` is exact for 0..4.
   */
  method GetOnboardingStatus(profile: Option<Onboarding>) returns (status: int)
    ensures profile.None? ==> status == 0
    ensures profile.Some? ==> status == 25 * CompletedSteps(profile.value)
    ensures status in {0, 25, 50, 75, 100}
  {
    if profile.None? {
      return 0;
    }
    var p := profile.value;
    var completed := 0;
    if p.accountTypeCompleted { completed := completed + 1; }
    if p.setupCompleted { completed := completed + 1; }
    if p.chartsCompleted { completed := completed + 1; }
    if p.completed { completed := completed + 1; }
    status := completed * 100 / 4;
  }

  /** Every flag set at `a` is set at `b`. */
  predicate AtLeastAsFar(a: Onboarding, b: Onboarding) {
    && (a.accountTypeCompleted ==> b.accountTypeCompleted)
    && (a.setupCompleted ==> b.setupCompleted)
    && (a.chartsCompleted ==> b.chartsCompleted)
    && (a.completed ==> b.completed)
  }

  /** Completing another step never lowers the progress, and completing a new one raises it by 25 points. */
  lemma ProgressIsMonotone(a: Onboarding, b: Onboarding)
    requires AtLeastAsFar(a, b)
    ensures 25 * CompletedSteps(a) <= 25 * CompletedSteps(b)
    ensures a != b ==> 25 * CompletedSteps(a) + 25 <= 25 * CompletedSteps(b)
  {
  }
}
