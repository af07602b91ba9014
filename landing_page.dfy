/** The landing page's download button: a version label and a download link,
    filled from the release listing when it answers and left at a fixed
    default otherwise. */
module LandingPage {
  import opened Wrappers
  import opened Strings

  /** What the download button shows. */
  datatype ReleaseInfo = ReleaseInfo(version: string, downloadUrl: string)

  /** One entry of the response's `assets` list. A missing `name` is `None`;
      an absent `browser_download_url` is written `""`, which the page's `||`
      treats the same way. */
  datatype Asset = Asset(name: Option<string>, browserDownloadUrl: string)

  /** The decoded response body. An absent `tag_name` is written `""`, which
      the page's truthiness test treats the same way; `assets` may be absent. */
  datatype Release = Release(tagName: string, assets: Option<seq<Asset>>)

  const SetupSuffix := "-setup.exe"
  const LatestUrl := "https://github.com/hotlap-ai/releases/releases/latest"
  const TagUrlPrefix := "https://github.com/hotlap-ai/releases/releases/tag/"

  /** The state before any response arrives. */
  function DefaultRelease(): (r: ReleaseInfo)
    ensures Populated(r)
  {
    ReleaseInfo("Latest", LatestUrl)
  }

  /** Both fields hold something the button can show. */
  predicate Populated(r: ReleaseInfo) {
    r.version != "" && r.downloadUrl != ""
  }

  /** The release page of `tag`, used when no installer link is available. */
  function TagUrl(tag: string): (url: string)
    ensures EndsWith(url, tag) && |url| > |tag|
  {
    TagUrlPrefix + tag
  }

  /** Distinct tags lead to distinct release pages. */
  lemma TagUrlInjective(a: string, b: string)
    requires TagUrl(a) == TagUrl(b)
    ensures a == b
  {
    assert a == TagUrl(a)[|TagUrlPrefix|..];
  }

  /** The `find` callback: the asset's name ends with the installer suffix. */
  predicate IsSetup(a: Asset)
    requires a.name.Some?
    ensures IsSetup(a) <==> exists stem :: a.name.value == stem + SetupSuffix
  {
    EndsWith(a.name.value, SetupSuffix)
  }

  /** Every asset in `assets[from..to]` has a name and is not the installer:
      `find` steps over all of them. */
  predicate PassedOver(assets: seq<Asset>, from: nat, to: nat)
    requires from <= to <= |assets|
  {
    forall j :: from <= j < to ==> assets[j].name.Some? && !IsSetup(assets[j])
  }

  /** How `Array.prototype.find` ends: at the index of the first match, with
      no match, or with the `TypeError` that `endsWith` on a missing name throws. */
  datatype Search = Found(index: nat) | NotFound | Threw(index: nat)

  /** `assets.find(a => a.name.endsWith("-setup.exe"))`, starting at `from`. */
  function FindSetup(assets: seq<Asset>, from: nat): (r: Search)
    requires from <= |assets|
    ensures r.Found? ==> from <= r.index < |assets| && assets[r.index].name.Some? &&
                         IsSetup(assets[r.index]) && PassedOver(assets, from, r.index)
    ensures r.Threw? ==> from <= r.index < |assets| && assets[r.index].name.None? &&
                         PassedOver(assets, from, r.index)
    ensures r.NotFound? ==> PassedOver(assets, from, |assets|)
    decreases |assets| - from
  {
    if from == |assets| then NotFound
    else if assets[from].name.None? then Threw(from)
    else if IsSetup(assets[from]) then Found(from)
    else FindSetup(assets, from + 1)
  }

  /** `data.assets?.find(...)`: no assets means no match. */
  function FindInAssets(assets: Option<seq<Asset>>): (r: Search)
    ensures !r.NotFound? ==> assets.Some? && r.index < |assets.value|
  {
    if assets.None? then NotFound else FindSetup(assets.value, 0)
  }

  /** The state after the response handler: `response` is `None` when the
      request, the body or the JSON decoding failed. A falsy tag or a thrown
      `TypeError` keeps `current`; otherwise the version is the tag and the
      link is the first installer's URL, or the tag page when that is empty
      or there is none. */
  function SelectRelease(current: ReleaseInfo, response: Option<Release>): (r: ReleaseInfo)
    ensures Populated(current) ==> Populated(r)
    ensures r == current || (response.Some? && r.version == response.value.tagName)
  {
    match response
    case None => current
    case Some(data) =>
      if data.tagName == "" then current
      else
        match FindInAssets(data.assets)
        case Threw(_) => current
        case NotFound => ReleaseInfo(data.tagName, TagUrl(data.tagName))
        case Found(i) =>
          var url := data.assets.value[i].browserDownloadUrl;
          ReleaseInfo(data.tagName, if url != "" then url else TagUrl(data.tagName))
  }

  /** A failed request, a falsy tag, or an unnamed asset before the first
      installer leaves the state as it was. */
  lemma KeptOnFailure(current: ReleaseInfo, response: Option<Release>)
    requires || response.None?
             || response.value.tagName == ""
             || (response.value.assets.Some? &&
                 exists i :: 0 <= i < |response.value.assets.value| &&
                   response.value.assets.value[i].name.None? &&
                   PassedOver(response.value.assets.value, 0, i))
    ensures SelectRelease(current, response) == current
  {

  }

  /** The first installer decides the link, whatever comes after it: its URL,
      or the tag page when that URL is empty. */
  lemma FirstSetupWins(current: ReleaseInfo, data: Release, i: nat)
    requires data.tagName != "" && data.assets.Some?
    requires i < |data.assets.value| && data.assets.value[i].name.Some? && IsSetup(data.assets.value[i])
    requires PassedOver(data.assets.value, 0, i)
    ensures var url := data.assets.value[i].browserDownloadUrl;
            SelectRelease(current, Some(data)) ==
              ReleaseInfo(data.tagName, if url != "" then url else TagUrl(data.tagName))
  {

  }

  /** With a tag, no assets or no installer among named assets gives the tag page. */
  lemma TagPageWithoutInstaller(current: ReleaseInfo, data: Release)
    requires data.tagName != ""
    requires data.assets.None? || PassedOver(data.assets.value, 0, |data.assets.value|)
    ensures SelectRelease(current, Some(data)) == ReleaseInfo(data.tagName, TagUrl(data.tagName))
  {

  }

  /** Whatever arrives, the button starting from the default always has a
      version and a link to show. */
  lemma AlwaysPopulated(response: Option<Release>)
    ensures Populated(DefaultRelease())
    ensures Populated(SelectRelease(DefaultRelease(), response))
  {
  }

  /** A release whose only asset is the installer: its tag and its URL. */
  lemma InstallerExample()
    ensures SelectRelease(DefaultRelease(),
              Some(Release("v1.2.3", Some([Asset(Some("app-1.2.3-setup.exe"), "https://x/y")])))) ==
            ReleaseInfo("v1.2.3", "https://x/y")
  {
    assert IsSetup(Asset(Some("app-1.2.3-setup.exe"), "https://x/y"));
  }

  /** The page's `release` state cell. */
  class HomePage {
    var release: ReleaseInfo

    constructor ()
      ensures release == ReleaseInfo("Latest", "https://github.com/hotlap-ai/releases/releases/latest")
    {
      release := DefaultRelease();
    }

    /** The fetch chain settling, once, with `response` (`None` on any
        failure, when `.catch` swallows the error). */
    method ReleaseResponse(response: Option<Release>)
      modifies this
      ensures release == SelectRelease(old(release), response)
    {
      match response
      case None =>
      case Some(data) =>
        if data.tagName != "" {
          var exeAsset := FindInAssets(data.assets);
          match exeAsset
          case Threw(_) =>
          case NotFound =>
            release := ReleaseInfo(data.tagName, TagUrl(data.tagName));
          case Found(i) =>
            var url := data.assets.value[i].browserDownloadUrl;
            release := ReleaseInfo(data.tagName, if url != "" then url else TagUrl(data.tagName));
        }
    }
  }
}
