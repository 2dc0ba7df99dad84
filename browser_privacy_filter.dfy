/**
 * The document-level privacy predicate (class BrowserPrivacyFilter). The URL
 * parser of the JavaScript runtime is not modelled: it is passed in as a
 * function from the URL text to its hostname, `None` standing for a URL that
 * does not parse (the constructor throws).
 */
module UrlPrivacy {
  import opened ActivityTypes
  import opened Text

  /** A URL parser: the hostname of a URL, or `None` when parsing throws. */
  type HostParser = string -> Option<string>

  /** Identity providers, password vaults and payment services, matched as substrings of the hostname. */
  const SensitiveDomains: seq<string> := [
    "accounts.google.com", "myaccount.google.com", "login.live.com", "github.com/login",
    "vault.bitwarden.com", "1password.com", "lastpass.com", "bank", "paypal.com",
    "stripe.com", "coinbase.com", "binance.com"
  ]

  /** The lower-cased hostname contains some entry of `SensitiveDomains`. */
  predicate SensitiveHost(hostname: string): (r: bool)
    ensures r <==> exists k | 0 <= k < |SensitiveDomains| :: ContainsIgnoringCase(hostname, SensitiveDomains[k])
  {
    LowerHostSearchIsCaseBlind(hostname);
    exists k | 0 <= k < |SensitiveDomains| :: Contains(Lower(hostname), SensitiveDomains[k])
  }

  /** Searching the lower-cased hostname for the lower-case entries is a case-blind search. */
  lemma LowerHostSearchIsCaseBlind(hostname: string)
    ensures (exists k | 0 <= k < |SensitiveDomains| :: Contains(Lower(hostname), SensitiveDomains[k]))
            <==> (exists k | 0 <= k < |SensitiveDomains| :: ContainsIgnoringCase(hostname, SensitiveDomains[k]))
  {
    forall k | 0 <= k < |SensitiveDomains|
      ensures Contains(Lower(hostname), SensitiveDomains[k]) <==> ContainsIgnoringCase(hostname, SensitiveDomains[k])
    {
      ContainsLowerIff(hostname, SensitiveDomains[k]);
    }
  }

  /** `BrowserPrivacyFilter.isUrlSensitive(url)`. */
  function IsUrlSensitive(url: Option<string>, parseHost: HostParser): (r: bool)
    ensures url == None || url == Some("") ==> !r
    ensures url.Some? && parseHost(url.value) == None ==> !r
    ensures r <==> url.Some? && url.value != "" && parseHost(url.value).Some?
                   && SensitiveHost(parseHost(url.value).value)
  {
    if url == None || url.value == "" then false
    else match parseHost(url.value)
         case None => false
         case Some(hostname) => SensitiveHost(hostname)
  }

  /** Fail-open: a URL that does not parse is never sensitive. */
  lemma UnparseableUrlIsNotSensitive(url: string, parseHost: HostParser)
    requires parseHost(url) == None
    ensures !IsUrlSensitive(Some(url), parseHost)
  {
  }

  /** Only the hostname is inspected: two URLs with the same hostname get the same verdict. */
  lemma OnlyHostnameMatters(u1: string, u2: string, parseHost: HostParser)
    requires u1 != "" && u2 != ""
    requires parseHost(u1) == parseHost(u2)
    ensures IsUrlSensitive(Some(u1), parseHost) == IsUrlSensitive(Some(u2), parseHost)
  {
  }

  /** Any hostname containing `bank`, in any ASCII case, is sensitive. */
  lemma BankHostIsSensitive(url: string, parseHost: HostParser, i: nat)
    requires url != ""
    requires parseHost(url).Some? && OccursAt(Lower(parseHost(url).value), "bank", i)
    ensures IsUrlSensitive(Some(url), parseHost)
  {
    assert SensitiveDomains[7] == "bank";
    OccurrenceContained(Lower(parseHost(url).value), "bank", i);
  }

  /**
   * The entry `github.com/login` holds a slash, which a hostname never does,
   * so that entry can never match the hostname it is compared with.
   */
  lemma {:induction false} SlashEntryNeverMatches(hostname: string)
    requires forall i :: 0 <= i < |hostname| ==> hostname[i] != '/'
    ensures !Contains(Lower(hostname), SensitiveDomains[3])
  {
    var lower := Lower(hostname);
    forall i | 0 <= i < |lower|
      ensures lower[i] != '/'
    {
      assert lower[i] == LowerChar(hostname[i]);
    }
    assert SensitiveDomains[3][10] == '/';
    MissingCharNotContained(lower, SensitiveDomains[3], 10);
  }
}
