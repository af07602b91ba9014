# hotlapai: auth callback and release selection

A Dafny model of the two pieces of decision logic in the hotlapai web front end.

**OAuth callback page** (`app/auth/callback/page.tsx`). The identity provider redirects here with tokens in the URL fragment. The page parses the fragment with `URLSearchParams`. It ends in one of three states:

- **Error** when the provider reported a non-empty `error`. The message is `error_description`, or `error` when the description is empty.
- **Error** with a fixed message when either token is absent or empty.
- **Success** otherwise. The page builds the deep link `hotlapai://auth/callback#<fragment>` from the raw fragment text, schedules an automatic redirect to it, and offers an "Open Hotlap.ai" button that navigates to it.

**Landing page download button** (`app/page.tsx`). The button starts as version `Latest` with a link to the releases listing. When the latest-release request answers with a truthy `tag_name`:

- the version becomes the tag;
- the link becomes the `browser_download_url` of the first asset whose name ends in `-setup.exe`;
- it falls back to the tag's release page when there is no such asset or its URL is empty.

Every failure leaves the button as it was.

Files:

- `wrappers.dfy`: `Option` and JavaScript truthiness of an optional string.
- `seqs.dfy`: a generic flat-map over sequences.
- `strings.dfy`: first index of a character, strict splitting and joining with round trips, `EndsWith`.
- `search_params.dfy`: the application/x-www-form-urlencoded parser of section 5.1 of the WHATWG URL Standard, without decoding. It also models the `URLSearchParams` constructor's removal of a leading `?` and `get` as first occurrence. A serializer is its inverse.
- `auth_callback.dfy`: `Classify`, the specification of the mount effect, and lemmas about it. The page itself is the class `AuthCallbackPage`. Its fields are the three state cells, the pending redirect and the last navigation target. `Init` is the effect, written with the component's early returns. `OpenApp` is the button handler. `RedirectTimerFires` is the timer callback.
- `callback_scenarios.dfy`: whole fragments classified end to end.
- `landing_page.dfy`: `ReleaseInfo`, the `find` over assets including its `TypeError` on a nameless asset, `SelectRelease`, and the class `HomePage` holding the `release` state cell.

Three behaviours of the code are worth stating on their own:

- The effect registers no cleanup function (app/auth/callback/page.tsx:41-44), so nothing cancels the scheduled redirect, and the model has no unmount that would.
- The page tests parameters for truthiness, so `error=` with an empty value is ignored, and an empty token counts as missing.
- When the first installer asset has an empty download URL, the page falls back to the release's tag page, even if a later installer has a URL.

## Model

| member | source | states |
| Wrappers.Truthy | app/auth/callback/page.tsx:24-30 | JavaScript truthiness of a parameter that may be null: exactly null and the empty string are falsy (the same test guards the tag and the asset URL at app/page.tsx:41 and 47) |
|---|---|---|
| Strings.Split | app/auth/callback/page.tsx:17 | splitting the fragment on `&` yields at least one piece and no piece contains `&` |
| Strings.JoinSplit | app/auth/callback/page.tsx:17 | joining the pieces with `&` gives back the fragment: splitting loses no character |
| Strings.SplitJoin | app/auth/callback/page.tsx:17 | `&`-free pieces joined and split again come back unchanged and in order |
| Strings.SplitAppend | app/auth/callback/page.tsx:17 | text on either side of one `&` is split independently and the pieces are concatenated in order |
| Strings.EndsWith | app/page.tsx:43 | `endsWith` holds exactly when the name is some stem followed by the suffix |
| SearchParams.ParsePair | app/auth/callback/page.tsx:17 | a piece is cut at its first `=`: the name has no `=` and name, `=`, value rebuild the piece; without `=` the whole piece is the name and the value is empty |
| SearchParams.Parse | app/auth/callback/page.tsx:17 | the form-urlencoded parser yields no pairs for empty input |
| SearchParams.ParseWellFormed | app/auth/callback/page.tsx:17 | every pair the parser yields has a name free of `&` and `=` and a value free of `&`, so it is one the serializer writes back unambiguously |
| SearchParams.FromInit | app/auth/callback/page.tsx:17 | the constructor gives no pairs for `""` and for a lone `?` |
| SearchParams.FromInitDropsQuestion | app/auth/callback/page.tsx:17 | the constructor drops exactly one leading `?` and parses the rest, so a second `?` stays part of the first name |
| SearchParams.Get | app/auth/callback/page.tsx:19-22 | `get` is null exactly when no pair has that name, and otherwise returns the value of the first pair with that name |
| SearchParams.ParseAppend | app/auth/callback/page.tsx:17 | the pairs of `a&b` are the pairs of `a` followed by the pairs of `b` |
| SearchParams.ParseSerialize | app/auth/callback/page.tsx:17 | parsing the `&`-joined `name=value` text of well-formed pairs gives back exactly those pairs, in order |
| SearchParams.GetAppend | app/auth/callback/page.tsx:19-22 | `get` on two lists in sequence consults the second only when the first has no pair of that name |
| AuthCallback.FragmentOf | app/auth/callback/page.tsx:16 | `substring(1)` of `location.hash` drops exactly its first character and maps an empty hash to an empty fragment |
| AuthCallback.Lookup | app/auth/callback/page.tsx:19-22 | every lookup on an empty fragment is null |
| AuthCallback.LookupWellFormed | app/auth/callback/page.tsx:17-22 | a lookup on the fragment never finds a name holding `&` or `=`, and a value it finds never holds `&` |
| AuthCallback.Classify | app/auth/callback/page.tsx:15-38 | the effect never leaves the page loading; a deep link exists exactly on success; an error always has a non-empty message; on success the message stays empty and the deep link is the scheme prefix followed by the fragment |
| AuthCallback.ProviderErrorWins | app/auth/callback/page.tsx:24-28 | a non-empty `error` gives an error whatever else is present, tokens included, with `error_description` as message when it is non-empty and `error` otherwise, and no deep link |
| AuthCallback.MissingTokens | app/auth/callback/page.tsx:30-34 | without a provider error, an absent or empty token gives exactly the fixed missing-tokens message and no deep link |
| AuthCallback.SuccessIff | app/auth/callback/page.tsx:24-38 | success holds if and only if there is no non-empty `error` and both tokens are non-empty |
| AuthCallback.EmptyFragment | app/auth/callback/page.tsx:16-33 | a location hash of `""` or `"#"` yields the missing-tokens error |
| AuthCallback.DeepLinkFragment | app/auth/callback/page.tsx:36 | the text after the first `#` of a deep link is exactly the fragment it was built from |
| AuthCallback.DeepLinkCarriesFragment | app/auth/callback/page.tsx:36-38 | on success the deep link carries the fragment byte for byte, so every parameter looked up in the link's fragment has the value the page read |
| AuthCallback.LookupSerialized | app/auth/callback/page.tsx:17-22 | `get` on a fragment written as `&`-joined well-formed pairs returns the first matching pair's value, provided the text does not start with the `?` the constructor drops |
| AuthCallback.SerializedError | app/auth/callback/page.tsx:19-28 | a fragment whose first `error` pair is non-empty fails, tokens or not, with the first `error_description` as message when that is non-empty and the error otherwise |
| AuthCallback.SerializedMissing | app/auth/callback/page.tsx:19-34 | a fragment without a non-empty first `error` whose first `access_token` or first `refresh_token` is absent or empty fails with the missing-tokens message |
| AuthCallback.SerializedSuccess | app/auth/callback/page.tsx:19-38 | a fragment without a non-empty first `error` whose first tokens are both non-empty succeeds, with the fragment text after the scheme prefix |
| AuthCallback.AuthCallbackPage.constructor | app/auth/callback/page.tsx:11-13 | the page starts loading, with an empty message, no deep link, no pending redirect and no navigation |
| AuthCallback.AuthCallbackPage.Init | app/auth/callback/page.tsx:15-44 | the one-shot effect, run only while loading, leaves the state cells equal to `Classify` of the fragment, schedules a redirect to the stored deep link exactly on success, and does not navigate |
| AuthCallback.AuthCallbackPage.OpenApp | app/auth/callback/page.tsx:46-50 | the button changes no state cell and navigates to the deep link only when it is non-empty, so repeating it gives the same target |
| AuthCallback.AuthCallbackPage.RedirectTimerFires | app/auth/callback/page.tsx:41-43 | the scheduled redirect, when there is one, navigates to the stored deep link |
| AuthCallback.LoadThenOpen | app/auth/callback/page.tsx:36-50 | after a page load, the timer and two button clicks all lead to the same target: the deep link built from the fragment on success, and no navigation on an error |
| CallbackScenarios.TokensSucceed | app/auth/callback/page.tsx:19-38 | `access_token=a&refresh_token=r` with both non-empty succeeds, with the whole fragment after the scheme prefix |
| CallbackScenarios.DescriptionIsMessage | app/auth/callback/page.tsx:26 | with a non-empty `error_description`, the description is the message |
| CallbackScenarios.EmptyTokenIsMissing | app/auth/callback/page.tsx:30-33 | `access_token=` with an empty value is a missing token even when the refresh token is present |
| CallbackScenarios.FirstOccurrenceWins | app/auth/callback/page.tsx:19-33 | with two `access_token` pairs only the first is read, so an empty first one is a missing token |
| LandingPage.DefaultRelease | app/page.tsx:32-35 | the state before any response has a non-empty version and a non-empty link |
| LandingPage.TagUrl | app/page.tsx:48 | the fallback link is non-empty and ends with the tag |
| LandingPage.TagUrlInjective | app/page.tsx:48 | distinct tags give distinct fallback links |
| LandingPage.IsSetup | app/page.tsx:42-43 | an asset is the installer exactly when its name is some stem followed by `-setup.exe` |
| LandingPage.FindSetup | app/page.tsx:42-44 | `find` stops at the first asset whose name ends in `-setup.exe`, having passed only named non-installers; it throws at the first nameless asset before any match; otherwise every asset is named and none matches |
| LandingPage.FindInAssets | app/page.tsx:42 | absent assets give no match; a match or a throw indexes an existing asset |
| LandingPage.SelectRelease | app/page.tsx:37-53 | the handler keeps both fields populated, and either leaves the state unchanged or sets the version to the response's tag |
| LandingPage.KeptOnFailure | app/page.tsx:41-52 | a failed request, a falsy tag, or a nameless asset before the first installer leaves the release state unchanged |
| LandingPage.FirstSetupWins | app/page.tsx:42-48 | with a tag, the version is the tag and the link is the first installer's URL, or the tag page when that URL is empty, whatever later assets hold |
| LandingPage.TagPageWithoutInstaller | app/page.tsx:42-48 | with a tag and no assets, or only named non-installer assets, the link is the tag's release page |
| LandingPage.AlwaysPopulated | app/page.tsx:32-49 | the default and every state reached from it have a non-empty version and a non-empty link |
| LandingPage.InstallerExample | app/page.tsx:41-49 | tag `v1.2.3` with the single asset `app-1.2.3-setup.exe` at `https://x/y` gives version `v1.2.3` and that URL |
| LandingPage.HomePage.constructor | app/page.tsx:32-35 | the initial release is version `Latest` with the releases-latest link |
| LandingPage.HomePage.ReleaseResponse | app/page.tsx:37-53 | the settled fetch replaces the release state with `SelectRelease` of the old state and the response |

## Left out

- Percent-decoding and the `+`-to-space replacement of the form-urlencoded parser: names and values are the raw text between separators. The status and the deep link do not depend on decoding, except when a parameter name is written percent-encoded. The error message shown for `error` or `error_description` is the undecoded text, so it differs from the page's whenever it contains `+` or a percent escape.
- `fetch`, `res.json()` and the promise chain: a response arrives already decoded as `Option<Release>`, with `None` for a network error, a failed decode or a `null` body. JSON values of unexpected types are not modelled: a numeric `tag_name`, or `assets` that is not an array.
- A missing `tag_name` and an empty one are both written `""`, as are a missing and an empty `browser_download_url`: the code's truthiness tests treat each pair alike.
- The 500 ms delay of `setTimeout` and the real assignment to `window.location.href`: the timer is an event, `RedirectTimerFires`, and navigation is a recorded target.
- Unmounting: the code registers no cleanup, so there is nothing to model, and no claim is made that unmounting suppresses the redirect.
- React's single run of an effect with an empty dependency array: modelled by `Init`'s precondition that the page is still loading.
- All rendering (JSX, animation, the 3D scene, images, buttons, icons, the footer year), which decides nothing.
