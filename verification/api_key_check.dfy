/**
 * The page's format check of an image-service API key, made before the key
 * is sent to the server for verification.
 */
module ApiKeyCheck {
  import opened Basics
  import opened Text

  const EmptyKey: string := "API key must be a non-empty string"
  const BadFormat: string := "Invalid API key format. Key should start with 'hf_'"
  const KeyPrefix: string := "hf_"
  const Quotes: set<char> := {'\'', '"'}

  /** Either the key is refused with a message, or its cleaned form goes on to the server. */
  datatype KeyCheck = Rejected(message: string) | ProceedToServer(cleanedKey: string)

  /** The key with surrounding whitespace trimmed, then every quote removed. */
  function CleanKey(key: string): string {
    RemoveChars(JsTrim(key), Quotes)
  }

  /** The format check of `verifyApiKey`; a missing key or the empty string is refused first. */
  function CheckHfKeyFormat(apiKey: Option<string>): (r: KeyCheck)
    ensures r.ProceedToServer? <==> Truthy(apiKey) && StartsWith(CleanKey(apiKey.value), KeyPrefix)
    ensures r.Rejected? && !Truthy(apiKey) ==> r.message == EmptyKey
    ensures r.Rejected? && Truthy(apiKey) ==> r.message == BadFormat
    ensures r.ProceedToServer? ==> r.cleanedKey == CleanKey(apiKey.value)
  {
    if !Truthy(apiKey) then Rejected(EmptyKey)
    else
      var cleaned := CleanKey(apiKey.value);
      if !StartsWith(cleaned, KeyPrefix) then Rejected(BadFormat) else ProceedToServer(cleaned)
  }

  /** A key that goes on to the server holds no quote and starts with `hf_`. */
  lemma ForwardedKeyShape(apiKey: Option<string>)
    requires CheckHfKeyFormat(apiKey).ProceedToServer?
    ensures var k := CheckHfKeyFormat(apiKey).cleanedKey;
      && |k| >= |KeyPrefix| && k[..3] == KeyPrefix
      && forall i :: 0 <= i < |k| ==> k[i] !in Quotes
  {
  }

  lemma {:induction false} RemoveAbsentChars(s: string, drop: set<char>)
    requires forall i :: 0 <= i < |s| ==> s[i] !in drop
    ensures RemoveChars(s, drop) == s
  {
    if s != [] {
      RemoveAbsentChars(s[1..], drop);
    }
  }

  /** A key already in clean form (trimmed, no quotes) is passed on unchanged exactly when it starts with `hf_`. */
  lemma CleanKeyPassesUnchanged(key: string)
    requires key != [] && JsTrim(key) == key
    requires forall i :: 0 <= i < |key| ==> key[i] !in Quotes
    ensures CheckHfKeyFormat(Some(key)) == if StartsWith(key, KeyPrefix) then ProceedToServer(key) else Rejected(BadFormat)
  {
    RemoveAbsentChars(key, Quotes);
  }

  lemma {:induction false} RemoveCharsConcat(a: string, b: string, drop: set<char>)
    ensures RemoveChars(a + b, drop) == RemoveChars(a, drop) + RemoveChars(b, drop)
  {
    if a == [] {
      assert a + b == b;
    } else {
      assert (a + b)[0] == a[0] && (a + b)[1..] == a[1..] + b;
      RemoveCharsConcat(a[1..], b, drop);
    }
  }

  /** A key that neither starts nor ends with whitespace is its own trim. */
  lemma TrimUntouched(k: string)
    requires k != [] && !IsJsWhitespace(k[0]) && !IsJsWhitespace(k[|k| - 1])
    ensures JsTrim(k) == k
  {
    assert LeadingCount(k, IsJsWhitespace) == 0;
    assert k[0..] == k;
    assert TrailingStart(k, IsJsWhitespace) == |k|;
  }

  /** The cleaned form of `q + inner + q` for a quote `q` and a quote-free `inner`. */
  lemma CleanQuoted(q: char, inner: string)
    requires q in Quotes
    requires forall i :: 0 <= i < |inner| ==> inner[i] !in Quotes
    ensures CleanKey([q] + inner + [q]) == inner
  {
    var k := [q] + inner + [q];
    TrimUntouched(k);
    RemoveCharsConcat([q] + inner, [q], Quotes);
    RemoveCharsConcat([q], inner, Quotes);
    RemoveAbsentChars(inner, Quotes);
  }

  /** Quotes around a key are removed. */
  lemma QuotedKeyAccepted()
    ensures CheckHfKeyFormat(Some("\"hf_k\"")) == ProceedToServer("hf_k")
  {
    CleanQuoted('"', "hf_k");
    assert "\"hf_k\"" == ['"'] + "hf_k" + ['"'];
  }

  /**
   * Trimming happens before quotes are removed, so whitespace inside the
   * quotes reaches the server.
   */
  lemma SpaceInsideQuotesKept()
    ensures CheckHfKeyFormat(Some("'hf_k '")) == ProceedToServer("hf_k ")
  {
    CleanQuoted('\'', "hf_k ");
    assert "'hf_k '" == ['\''] + "hf_k " + ['\''];
  }
}
