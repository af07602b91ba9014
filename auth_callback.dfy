/** The OAuth callback page: it reads the tokens the identity provider put in
    the URL fragment, decides between a provider error, missing tokens and
    success, and on success hands the fragment to the desktop application
    through the `hotlapai://` custom scheme. */
module AuthCallback {
  import opened Wrappers
  import opened Strings
  import opened SearchParams

  /** The three mutually exclusive states the page renders. */
  datatype Status = Loading | Success | Error

  /** The page's three state cells. */
  datatype View = View(status: Status, errorMessage: string, deepLink: string)

  const SchemePrefix := "hotlapai://auth/callback"
  const DeepLinkPrefix := SchemePrefix + "#"
  const MissingTokensMessage := "Missing authentication tokens. Please try signing in again."

  /** `window.location.hash.substring(1)`: the fragment without its `#`
      (`location.hash` is empty when the fragment is empty or absent). */
  function FragmentOf(locationHash: string): (hash: string)
    ensures locationHash == "" ==> hash == ""
    ensures locationHash != "" ==> locationHash == [locationHash[0]] + hash
  {
    if locationHash == "" then "" else locationHash[1..]
  }

  /** `new URLSearchParams(hash).get(name)`: an empty fragment has no parameters. */
  function Lookup(hash: string, name: string): (v: Option<string>)
    ensures hash == "" ==> v == None
  {
    Get(FromInit(hash), name)
  }

  /** A name holding `&` or `=` is never found in a fragment, and a value
      found never holds `&`. */
  lemma LookupWellFormed(hash: string, name: string)
    ensures Lookup(hash, name).Some? ==> WellFormed(Param(name, Lookup(hash, name).value))
  {
    var init := if |hash| > 0 && hash[0] == '?' then hash[1..] else hash;
    ParseWellFormed(init);
    GetWellFormed(FromInit(hash), name);
  }

  /** The state the mount effect leaves behind for fragment `hash`. */
  function Classify(hash: string): (v: View)
    ensures v.status != Loading
    ensures v.status == Success <==> v.deepLink != ""
    ensures v.status == Error ==> v.errorMessage != ""
    ensures v.status == Success ==> v.errorMessage == "" && v.deepLink == DeepLinkPrefix + hash
  {
    var error := Lookup(hash, "error");
    var errorDescription := Lookup(hash, "error_description");
    if Truthy(error) then
      View(Error, if Truthy(errorDescription) then errorDescription.value else error.value, "")
    else if !Truthy(Lookup(hash, "access_token")) || !Truthy(Lookup(hash, "refresh_token")) then
      View(Error, MissingTokensMessage, "")
    else
      View(Success, "", DeepLinkPrefix + hash)
  }

  /** A non-empty `error` decides the outcome whatever else the fragment holds,
      tokens included: the message is `error_description` when that is
      non-empty, `error` otherwise, and no deep link is built. */
  lemma ProviderErrorWins(hash: string)
    requires Truthy(Lookup(hash, "error"))
    ensures Classify(hash).status == Error
    ensures Classify(hash).errorMessage ==
              if Truthy(Lookup(hash, "error_description")) then Lookup(hash, "error_description").value
              else Lookup(hash, "error").value
    ensures Classify(hash).deepLink == ""
  {
  }

  /** Without a provider error, an absent or empty token gives the fixed message. */
  lemma MissingTokens(hash: string)
    requires !Truthy(Lookup(hash, "error"))
    requires !Truthy(Lookup(hash, "access_token")) || !Truthy(Lookup(hash, "refresh_token"))
    ensures Classify(hash) == View(Error, MissingTokensMessage, "")
  {
  }

  /** Success happens exactly when there is no provider error and both tokens are non-empty. */
  lemma SuccessIff(hash: string)
    ensures Classify(hash).status == Success <==>
              !Truthy(Lookup(hash, "error")) &&
              Truthy(Lookup(hash, "access_token")) && Truthy(Lookup(hash, "refresh_token"))
  {
  }

  /** An empty fragment is a missing-tokens error. `location.hash` is `""`
      both when the URL has no `#` and when it ends in a bare `#`; the value
      `"#"` is covered as well, for completeness. */
  lemma EmptyFragment()
    ensures Classify(FragmentOf("")) == View(Error, MissingTokensMessage, "")
    ensures Classify(FragmentOf("#")) == View(Error, MissingTokensMessage, "")
  {
    assert FragmentOf("#") == "";
    assert Split("", '&') == [""];
    assert Parse("") == [];
  }

  /** The fragment of a URL: what follows its first `#`, or nothing. */
  function UrlFragment(url: string): string {
    var i := FirstIndex(url, '#');
    if i == |url| then "" else url[i + 1..]
  }

  /** On success the deep link hands the fragment over unchanged: the desktop
      application reads back exactly the text the page received, so every
      parameter it looks up has the value the page saw. (Only success carries
      a link: otherwise `deepLink` is empty.) */
  lemma DeepLinkCarriesFragment(hash: string)
    requires Classify(hash).status == Success
    ensures UrlFragment(Classify(hash).deepLink) == hash
    ensures forall name :: Lookup(UrlFragment(Classify(hash).deepLink), name) == Lookup(hash, name)
  {
    DeepLinkFragment(hash);
  }

  /** What follows the first `#` of the deep link is the fragment it was built from. */
  lemma DeepLinkFragment(hash: string)
    ensures UrlFragment(DeepLinkPrefix + hash) == hash
  {
    assert '#' !in SchemePrefix;
    FirstIndexAfter(SchemePrefix, '#', hash);
    var link := SchemePrefix + "#" + hash;
    assert link == DeepLinkPrefix + hash;
    assert link[|SchemePrefix| + 1..] == hash;
  }

  /** Pairs whose serialization the page reads back as the same pairs: each
      is well formed, and the text does not start with the `?` that
      `URLSearchParams` drops. */
  predicate Readable(params: seq<Param>) {
    && (forall i :: 0 <= i < |params| ==> WellFormed(params[i]))
    && (params != [] ==> params[0].name == "" || params[0].name[0] != '?')
  }

  /** `get` on the fragment `Serialize(params)` is `get` on `params`. */
  lemma LookupSerialized(params: seq<Param>, name: string)
    requires Readable(params)
    ensures Lookup(Serialize(params), name) == Get(params, name)
  {
    ParseSerialize(params);
  }

  /** A fragment whose first `error` pair is non-empty fails with the first
      non-empty `error_description`, or else that error, as message. */
  lemma SerializedError(params: seq<Param>)
    requires Readable(params)
    requires Truthy(Get(params, "error"))
    ensures var description := Get(params, "error_description");
            Classify(Serialize(params)) ==
              View(Error, if Truthy(description) then description.value else Get(params, "error").value, "")
  {
    LookupSerialized(params, "error");
    LookupSerialized(params, "error_description");
    ProviderErrorWins(Serialize(params));
  }

  /** Without a non-empty `error`, an absent or empty first token is reported as missing. */
  lemma SerializedMissing(params: seq<Param>)
    requires Readable(params)
    requires !Truthy(Get(params, "error"))
    requires !Truthy(Get(params, "access_token")) || !Truthy(Get(params, "refresh_token"))
    ensures Classify(Serialize(params)) == View(Error, MissingTokensMessage, "")
  {
    LookupSerialized(params, "error");
    LookupSerialized(params, "access_token");
    LookupSerialized(params, "refresh_token");
    MissingTokens(Serialize(params));
  }

  /** Without a non-empty `error` and with both tokens non-empty, the fragment succeeds. */
  lemma SerializedSuccess(params: seq<Param>)
    requires Readable(params)
    requires !Truthy(Get(params, "error"))
    requires Truthy(Get(params, "access_token")) && Truthy(Get(params, "refresh_token"))
    ensures Classify(Serialize(params)) == View(Success, "", DeepLinkPrefix + Serialize(params))
  {
    LookupSerialized(params, "error");
    LookupSerialized(params, "access_token");
    LookupSerialized(params, "refresh_token");
    SuccessIff(Serialize(params));
  }

  /** The page component: its three state cells, the redirect `setTimeout`
      has scheduled, and the last value assigned to `window.location.href`. */
  class AuthCallbackPage {
    var status: Status
    var errorMessage: string
    var deepLink: string
    /** Target of the pending auto-redirect timer, if one is scheduled. */
    var scheduledRedirect: Option<string>
    /** Last navigation target assigned to `window.location.href`, if any. */
    var navigationTarget: Option<string>

    /** A deep link exists exactly on success, nothing but the initial values
        is set while loading, and a scheduled redirect goes to the deep link. */
    ghost predicate Valid()
      reads this
    {
      && (status == Loading ==> errorMessage == "" && deepLink == "" && scheduledRedirect.None?)
      && (status == Success <==> deepLink != "")
      && (scheduledRedirect.Some? ==> scheduledRedirect.value == deepLink)
    }

    function Current(): View
      reads this
    {
      View(status, errorMessage, deepLink)
    }

    /** The initial state cells: loading, no message, no deep link. */
    constructor ()
      ensures Valid()
      ensures Current() == View(Loading, "", "")
      ensures scheduledRedirect == None && navigationTarget == None
    {
      status, errorMessage, deepLink := Loading, "", "";
      scheduledRedirect, navigationTarget := None, None;
    }

    /** The mount effect, run once: parse the fragment of `locationHash`,
        return early on a provider error or a missing token, and otherwise
        store the deep link, switch to success and schedule the redirect. */
    method Init(locationHash: string)
      requires Valid() && status == Loading
      modifies this
      ensures Valid()
      ensures Current() == Classify(FragmentOf(locationHash))
      ensures scheduledRedirect == if status == Success then Some(deepLink) else None
      ensures navigationTarget == old(navigationTarget)
    {
      var hash := FragmentOf(locationHash);
      var params := FromInit(hash);
      var accessToken := Get(params, "access_token");
      var refreshToken := Get(params, "refresh_token");
      var error := Get(params, "error");
      var errorDescription := Get(params, "error_description");

      if Truthy(error) {
        status := Error;
        errorMessage := if Truthy(errorDescription) then errorDescription.value else error.value;
        return;
      }

      if !Truthy(accessToken) || !Truthy(refreshToken) {
        status := Error;
        errorMessage := MissingTokensMessage;
        return;
      }

      var link := DeepLinkPrefix + hash;
      deepLink := link;
      status := Success;
      scheduledRedirect := Some(link);
    }

    /** The "Open Hotlap.ai" button: navigate to the deep link when there is one. */
    method OpenApp()
      modifies this`navigationTarget
      ensures navigationTarget == if deepLink != "" then Some(deepLink) else old(navigationTarget)
    {
      if deepLink != "" {
        navigationTarget := Some(deepLink);
      }
    }

    /** The auto-redirect timer firing: it navigates to the link it was given. */
    method RedirectTimerFires()
      requires Valid()
      modifies this`navigationTarget, this`scheduledRedirect
      ensures Valid()
      ensures scheduledRedirect == None
      ensures navigationTarget == if old(scheduledRedirect).Some? then Some(deepLink) else old(navigationTarget)
    {
      if scheduledRedirect.Some? {
        navigationTarget := scheduledRedirect;
        scheduledRedirect := None;
      }
    }
  }

  /** A page load followed by the timer and two clicks on the button: the
      timer and every click go to the same place, the deep link built from
      the fragment, and on an error nothing navigates. */
  method LoadThenOpen(locationHash: string) returns (afterTimer: Option<string>, afterClick: Option<string>, afterSecondClick: Option<string>)
    ensures afterTimer == afterClick == afterSecondClick
    ensures Classify(FragmentOf(locationHash)).status == Success ==>
              afterClick == Some(DeepLinkPrefix + FragmentOf(locationHash))
    ensures Classify(FragmentOf(locationHash)).status == Error ==> afterClick == None
  {
    var page := new AuthCallbackPage();
    page.Init(locationHash);
    page.RedirectTimerFires();
    afterTimer := page.navigationTarget;
    page.OpenApp();
    afterClick := page.navigationTarget;
    page.OpenApp();
    afterSecondClick := page.navigationTarget;
  }
}
