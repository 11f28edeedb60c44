/** The storage client configuration (services/supabase.ts): a client is
    made only when both credentials look real. */
module Supabase {

  import opened Wrappers
  import opened Strings

  /** The placeholder text shipped in example configurations. */
  const Placeholder := "YOUR_SUPABASE_URL"

  /** `hasKeys`: both values non-empty, the URL starting with "https", and
      the URL not containing the placeholder. */
  predicate HasKeys(url: string, key: string)
    ensures HasKeys(url, key) ==> key != "" && 5 <= |url| && url[..5] == "https"
    ensures HasKeys(url, key) ==> forall i :: !OccursAt(url, Placeholder, i)
  {
    ContainsIffOccurs(url, Placeholder);
    url != "" && key != "" && StartsWith(url, "https") && !Contains(url, Placeholder)
  }

  /** The arguments `createClient` is called with; the client library itself
      is not part of this model. */
  datatype Client = Client(url: string, key: string)

  /** `supabase`: a client for the configured URL and key when `hasKeys`
      holds, and `null` otherwise. Missing variables read as "". */
  function MakeClient(urlEnv: Option<string>, keyEnv: Option<string>): (r: Option<Client>)
    ensures r.Some? <==> HasKeys(OrEmpty(urlEnv), OrEmpty(keyEnv))
    ensures r.Some? ==> r.value.url == OrEmpty(urlEnv) && r.value.key == OrEmpty(keyEnv)
  {
    var url := OrEmpty(urlEnv);
    var key := OrEmpty(keyEnv);
    if HasKeys(url, key) then Some(Client(url, key)) else None
  }

  /** A missing or empty variable means no client. */
  lemma MissingCredentialsNoClient(urlEnv: Option<string>, keyEnv: Option<string>)
    requires urlEnv.None? || keyEnv.None? || urlEnv == Some("") || keyEnv == Some("")
    ensures MakeClient(urlEnv, keyEnv).None?
  {
  }

  /** A plain-http address is refused. */
  lemma HttpRejected(rest: string, key: string)
    ensures !HasKeys("http://" + rest, key)
  {
    var url := "http://" + rest;
    assert url[4] == ':' && "https"[4] == 's';
  }

  /** An address with the placeholder anywhere in it is refused. */
  lemma PlaceholderRejected(x: string, y: string, key: string)
    ensures !HasKeys(x + Placeholder + y, key)
  {
    ContainsInfix(x, Placeholder, y);
  }

  /** An https address without the placeholder, with any non-empty key,
      yields a client for exactly those values. */
  lemma HttpsAccepted(host: string, key: string)
    requires key != ""
    requires !Contains(host, Placeholder)
    ensures MakeClient(Some("https://" + host), Some(key)) == Some(Client("https://" + host, key))
  {
    var url := "https://" + host;
    assert url[..5] == "https";
    ContainsIffOccurs(url, Placeholder);
    ContainsIffOccurs(host, Placeholder);
    forall i | OccursAt(url, Placeholder, i)
      ensures OccursAt(host, Placeholder, i - 8)
    {
      PlaceholderAfterScheme(host, i);
    }
  }

  /** The placeholder cannot overlap "https://", which has no 'Y': an
      occurrence in the address is an occurrence in the host. */
  lemma PlaceholderAfterScheme(host: string, i: int)
    requires OccursAt("https://" + host, Placeholder, i)
    ensures OccursAt(host, Placeholder, i - 8)
  {
    var url := "https://" + host;
    assert url[i] == url[i..i + |Placeholder|][0] == 'Y';
    assert i >= 8;
    assert forall k :: 0 <= k < |Placeholder| ==> Placeholder[k] == url[i + k] == host[i - 8 + k];
  }
}
