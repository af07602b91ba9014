/** Whole fragments as an identity provider sends them, classified end to end.
    Each fragment is written as the serialization of its pairs, so
    `[Param("access_token", a), Param("refresh_token", r)]` stands for the
    text `access_token=a&refresh_token=r`. */
module CallbackScenarios {
  import opened Wrappers
  import opened SearchParams
  import opened AuthCallback

  /** The names the page reads hold neither `&` nor `=`, and none starts with `?`. */
  lemma PlainName(name: string)
    requires name in {"access_token", "refresh_token", "error", "error_description"}
    ensures '&' !in name && '=' !in name && name[0] != '?'
  {
  }

  /** Both tokens and nothing else: success, with the whole fragment in the deep link. */
  lemma TokensSucceed(accessToken: string, refreshToken: string)
    requires accessToken != "" && '&' !in accessToken
    requires refreshToken != "" && '&' !in refreshToken
    ensures var hash := Serialize([Param("access_token", accessToken), Param("refresh_token", refreshToken)]);
            Classify(hash) == View(Success, "", DeepLinkPrefix + hash)
  {
    var params := [Param("access_token", accessToken), Param("refresh_token", refreshToken)];
    PlainName(params[0].name);
    PlainName(params[1].name);
    assert Readable(params);
    assert Get(params, "access_token") == Some(accessToken);
    assert Get(params, "refresh_token") == Some(refreshToken);
    SerializedSuccess(params);
  }

  /** The provider's description, when given, is the message shown. */
  lemma DescriptionIsMessage(error: string, description: string)
    requires error != "" && '&' !in error
    requires description != "" && '&' !in description
    ensures var hash := Serialize([Param("error", error), Param("error_description", description)]);
            Classify(hash) == View(Error, description, "")
  {
    var params := [Param("error", error), Param("error_description", description)];
    PlainName(params[0].name);
    PlainName(params[1].name);
    assert Readable(params);
    SerializedError(params);
  }

  /** An empty access token counts as missing even when the refresh token is there. */
  lemma EmptyTokenIsMissing(refreshToken: string)
    requires '&' !in refreshToken
    ensures var hash := Serialize([Param("access_token", ""), Param("refresh_token", refreshToken)]);
            Classify(hash) == View(Error, MissingTokensMessage, "")
  {
    var params := [Param("access_token", ""), Param("refresh_token", refreshToken)];
    PlainName(params[0].name);
    PlainName(params[1].name);
    assert Readable(params);
    SerializedMissing(params);
  }

  /** Only the first of two `access_token` pairs is read: an empty first one is missing. */
  lemma FirstOccurrenceWins(accessToken: string, refreshToken: string)
    requires '&' !in accessToken && '&' !in refreshToken
    ensures var hash := Serialize([Param("access_token", ""), Param("access_token", accessToken),
                                   Param("refresh_token", refreshToken)]);
            Classify(hash) == View(Error, MissingTokensMessage, "")
  {
    var params := [Param("access_token", ""), Param("access_token", accessToken), Param("refresh_token", refreshToken)];
    PlainName(params[0].name);
    PlainName(params[1].name);
    PlainName(params[2].name);
    assert Readable(params);
    SerializedMissing(params);
  }
}
