/**
 * The API-key check of APIKeyAuthMiddleware (internal/handler/http/v1/auth.go).
 * The key comes from the X-API-Key header or, when that header is empty,
 * from an `Authorization: Bearer <key>` header as in section 2.1 of RFC 6750.
 * A missing key and a key that is not configured are both refused with 401,
 * with different messages; a configured key lets the handler chain continue.
 */
module Auth {

  const BearerPrefix: string := "Bearer "
  const StatusUnauthorized: int := 401
  const KeyRequiredMessage: string := "API key required"
  const InvalidKeyMessage: string := "Invalid API key"

  /** What the middleware does with the request. */
  datatype Decision =
    | Next                                  // c.Next()
    | Abort(status: int, message: string)   // c.AbortWithStatusJSON(status, {"error": message})

  predicate HasPrefix(s: string, prefix: string) {
    |prefix| <= |s| && s[..|prefix|] == prefix
  }

  /**
   * The key the request presents. X-API-Key wins whenever it is non-empty;
   * otherwise an Authorization value starting with exactly "Bearer " carries
   * the key after that prefix, and any other Authorization value carries none.
   */
  function PresentedKey(xApiKey: string, authorization: string): (key: string)
    ensures xApiKey != "" ==> key == xApiKey
    ensures xApiKey == "" && HasPrefix(authorization, BearerPrefix) ==> authorization == BearerPrefix + key
    ensures xApiKey == "" && !HasPrefix(authorization, BearerPrefix) ==> key == ""
  {
    if xApiKey != "" then xApiKey
    else if HasPrefix(authorization, BearerPrefix) then
      assert authorization == authorization[..|BearerPrefix|] + authorization[|BearerPrefix|..];
      authorization[|BearerPrefix|..]
    else ""
  }

  /** A bearer credential gives back exactly the key it was built from, the empty key included. */
  lemma BearerKeyRecovered(key: string)
    ensures PresentedKey("", BearerPrefix + key) == key
  {
    assert HasPrefix(BearerPrefix + key, BearerPrefix) by {
      assert (BearerPrefix + key)[..|BearerPrefix|] == BearerPrefix;
    }
  }

  /** Any Authorization value other than "Bearer " followed by something supplies no key. */
  lemma OtherSchemesSupplyNoKey(authorization: string)
    requires !exists key :: key != "" && authorization == BearerPrefix + key
    ensures PresentedKey("", authorization) == ""
  {
    if HasPrefix(authorization, BearerPrefix) {
      var key := authorization[|BearerPrefix|..];
      assert authorization == BearerPrefix + key;
    }
  }

  /**
   * The middleware's decision: 401 "API key required" when no key is
   * presented, 401 "Invalid API key" when the key is not one of `apiKeys`,
   * and Next exactly when it is.
   */
  method Authenticate(xApiKey: string, authorization: string, apiKeys: seq<string>) returns (d: Decision)
    ensures var key := PresentedKey(xApiKey, authorization);
      && (d == Abort(StatusUnauthorized, KeyRequiredMessage) <==> key == "")
      && (d == Abort(StatusUnauthorized, InvalidKeyMessage) <==> key != "" && key !in apiKeys)
      && (d == Next <==> key != "" && key in apiKeys)
  {
    var apiKey := xApiKey;
    if apiKey == "" {
      if authorization != "" && HasPrefix(authorization, BearerPrefix) {
        apiKey := authorization[|BearerPrefix|..];
      }
    }
    if apiKey == "" {
      return Abort(StatusUnauthorized, KeyRequiredMessage);
    }
    var isValid := false;
    var i := 0;
    while i < |apiKeys|
      invariant 0 <= i <= |apiKeys|
      invariant !isValid
      invariant forall j :: 0 <= j < i ==> apiKeys[j] != apiKey
    {
      if apiKeys[i] == apiKey {
        isValid := true;
        break;
      }
      i := i + 1;
    }
    if !isValid {
      return Abort(StatusUnauthorized, InvalidKeyMessage);
    }
    d := Next;
  }
}
