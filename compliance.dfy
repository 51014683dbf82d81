/** Server-side policy checks: the topic denylist and fixed limits. */
module Compliance {
  import opened Common

  /** Topic categories that may not be listed, all in lower case. */
  const TopicBlacklist: seq<string> := [
    "politics",
    "judicial",
    "national_security",
    "public_health_emergency",
    "stock_price",
    "derivatives",
    "individual_private",
    "sports_betting"
  ]

  /** ASCII lower-casing of one character; every other character is kept. */
  function LowerChar(c: char): char
  {
    if 'A' <= c <= 'Z' then (c as int + 32) as char else c
  }

  function Lower(s: string): (r: string)
    ensures |r| == |s|
  {
    seq(|s|, i requires 0 <= i < |s| => LowerChar(s[i]))
  }

  ghost predicate IsLower(s: string)
  {
    forall i :: 0 <= i < |s| ==> !('A' <= s[i] <= 'Z')
  }

  /** Lower-casing yields a lower-case string and leaves lower-case strings alone. */
  lemma LowerIsLower(s: string)
    ensures IsLower(Lower(s))
    ensures IsLower(s) ==> Lower(s) == s
  {
  }

  lemma LowerIdempotent(s: string)
    ensures Lower(Lower(s)) == Lower(s)
  {
    LowerIsLower(s);
    LowerIsLower(Lower(s));
  }

  /**
   * An absent category is allowed; a present one exactly when its
   * lower-cased form is not on the denylist (the empty string never is).
   */
  function IsTopicAllowed(category: Option<string>): (r: bool)
    ensures category.None? ==> r
    ensures category.Some? ==> (r <==> Lower(category.value) !in TopicBlacklist)
  {
    if category.None? || category.value == "" then
      assert category.Some? ==> Lower(category.value) == "";
      true
    else Lower(category.value) !in TopicBlacklist
  }

  lemma MissingCategoryAllowed()
    ensures IsTopicAllowed(None) && IsTopicAllowed(Some(""))
  {
  }

  /** The check does not depend on letter case. */
  lemma CaseInsensitive(c: string)
    ensures IsTopicAllowed(Some(c)) == IsTopicAllowed(Some(Lower(c)))
  {
    LowerIdempotent(c);
  }

  /** Every denylisted topic is rejected, however it is capitalised. */
  lemma ListedTopicRejected(c: string, t: string)
    requires t in TopicBlacklist && Lower(c) == t
    ensures !IsTopicAllowed(Some(c))
  {
    assert t != "";
  }

  lemma Examples()
    ensures !IsTopicAllowed(Some("Politics"))
    ensures !IsTopicAllowed(Some("SPORTS_BETTING"))
    ensures IsTopicAllowed(Some("weather"))
  {
    assert Lower("Politics") == "politics";
    assert Lower("SPORTS_BETTING") == "sports_betting";
  }

  /** Always true: the guard has nothing to inspect. */
  function EnforceNoPurchaseRoutes(): (r: bool)
    ensures r
  {
    true
  }

  /** Most points any user may spend in a day. */
  const MaxPerDay: int := 500

  datatype EarnLimit = EarnLimit(maxPerDay: int)

  /** The same limit for every user. */
  function DailyEarnLimit(userId: string): (r: EarnLimit)
    ensures r.maxPerDay == MaxPerDay
  {
    EarnLimit(500)
  }

  lemma DailyEarnLimitUniform(u1: string, u2: string)
    ensures DailyEarnLimit(u1) == DailyEarnLimit(u2)
  {
  }

  /** The user fields the eligibility check looks at. */
  datatype Profile = Profile(email: Option<string>)

  /** Eligible when a user is present and has a non-empty email. */
  function IsKycEligible(user: Option<Profile>): (r: bool)
    ensures r <==> user.Some? && user.value.email.Some? && |user.value.email.value| > 0
  {
    match user
    case None => false
    case Some(p) => p.email.Some? && p.email.value != ""
  }
}
