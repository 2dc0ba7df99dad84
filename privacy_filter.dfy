/**
 * The application-level privacy predicate (class PrivacyFilter): an exact,
 * case-sensitive set of sensitive application names, and case-insensitive
 * private-browsing keywords searched for in the window title.
 */
module AppPrivacy {
  import opened ActivityTypes
  import opened Text

  /** Password managers and authenticators, matched by exact name. */
  const SensitiveApps: set<string> := {
    "KeePass", "KeePassXC", "Bitwarden", "1Password", "Authy", "LastPass",
    "Enpass", "Dashlane", "RoboForm", "Keysmith", "Private/Incognito"
  }

  /** The title contains a private-browsing keyword, ignoring ASCII case. */
  predicate HasPrivateKeyword(title: string): (r: bool)
    ensures r <==> ContainsIgnoringCase(title, "incognito") || ContainsIgnoringCase(title, "private browsing")
                   || ContainsIgnoringCase(title, "inprivate")
  {
    ContainsLowerIff(title, "incognito");
    ContainsLowerIff(title, "private browsing");
    ContainsLowerIff(title, "inprivate");
    var lower := Lower(title);
    Contains(lower, "incognito") || Contains(lower, "private browsing") || Contains(lower, "inprivate")
  }

  /** `PrivacyFilter.isSensitive(appName, windowTitle)`. */
  function IsSensitive(appName: string, windowTitle: Option<string>): (r: bool)
    ensures r <==> appName in SensitiveApps || (windowTitle.Some? && HasPrivateKeyword(windowTitle.value))
  {
    if appName in SensitiveApps then true
    else if windowTitle.Some? && windowTitle.value != "" then HasPrivateKeyword(windowTitle.value)
    else false
  }

  /** An absent or empty title leaves only the application-name test. */
  lemma NoTitleMeansAppCheckOnly(appName: string, windowTitle: Option<string>)
    requires windowTitle == None || windowTitle == Some("")
    ensures IsSensitive(appName, windowTitle) <==> appName in SensitiveApps
  {
  }

  /**
   * The application set is matched case-sensitively: `KeePass` is sensitive
   * whatever its title, while `keepass` is judged by its title alone.
   */
  lemma AppSetIsCaseSensitive(windowTitle: Option<string>)
    ensures IsSensitive("KeePass", windowTitle)
    ensures IsSensitive("keepass", windowTitle) <==> windowTitle.Some? && HasPrivateKeyword(windowTitle.value)
    ensures !IsSensitive("keepass", Some("Vault"))
  {
    var lower := Lower("Vault");
    assert lower == "vault";
    MissingCharNotContained(lower, "incognito", 2);
    MissingCharNotContained(lower, "private browsing", 1);
    MissingCharNotContained(lower, "inprivate", 1);
  }

  /** A keyword is found whatever its case, so an "InPrivate" window is sensitive. */
  lemma KeywordMatchIgnoresCase(appName: string)
    ensures IsSensitive(appName, Some("New tab - InPrivate"))
  {
    var lower := Lower("New tab - InPrivate");
    assert lower == "new tab - inprivate";
    assert lower[10..19] == "inprivate";
    OccurrenceContained(lower, "inprivate", 10);
  }
}
