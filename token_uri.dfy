/** The token metadata step (src/modules/handlers/uri.ts): resolve a
    token's metadata URI to its image URL through the public IPFS gateway,
    then hand the token record, with the image filled in, to the store. The
    HTTP fetch is a parameter: it maps the requested URL to what came back. */
module TokenUri {
  import opened Common
  import opened Text
  import opened Persistence

  const IpfsScheme: string := "ipfs://"
  const IpfsGateway: string := "https://ipfs.io/ipfs/"

  /** `s.replace('ipfs://', 'https://ipfs.io/ipfs/')`: the first occurrence only. */
  function Rewrite(s: string): string
  {
    ReplaceFirst(s, IpfsScheme, IpfsGateway)
  }

  /** What `fetch(url).then(r => r.json())` settles with: a parsed body, the
      `invalid-json` error, or any other failure. */
  datatype FetchResponse = Body(json: Json) | InvalidJson | Failed

  /** fetchImageURL resolves with a URL, or rejects (a TypeError from
      calling `replace` on something that is not a string). */
  datatype ImageResult = Url(url: string) | Rejected

  predicate HasStringImage(j: Json)
  {
    j.JObj? && "image" in j.fields && j.fields["image"].JStr?
  }

  /** The URL fetchImageURL settles with, by how the fetch of the rewritten
      URI settles: a JSON body's string `image`, the rewritten URI when the
      body is not JSON, the empty string when the request fails (or the body
      is `null`, whose `image` cannot be read); each result is rewritten once
      more, and a non-string `image` makes that last `replace` reject. */
  function ImageOf(tokenURI: string, fetch: string -> FetchResponse): (r: ImageResult)
    ensures var resp := fetch(Rewrite(tokenURI));
      r.Rejected? <==> resp.Body? && resp.json != JNull && !HasStringImage(resp.json)
  {
    var url := Rewrite(tokenURI);
    match fetch(url)
    case Failed => Url(Rewrite(""))
    case InvalidJson => Url(Rewrite(url))
    case Body(json) =>
      if json == JNull then Url(Rewrite(""))
      else if HasStringImage(json) then Url(Rewrite(json.fields["image"].s))
      else Rejected
  }

  /** fetchImageURL(tokenURI): fetch the rewritten URI; the `image` of the
      JSON body, the rewritten URI when the body is not JSON, or the empty
      string when the request fails, each rewritten once more. */
  method FetchImageURL(tokenURI: string, fetch: string -> FetchResponse) returns (r: ImageResult)
    ensures fetch(Rewrite(tokenURI)) == Failed ==> r == Url("")
    ensures fetch(Rewrite(tokenURI)) == InvalidJson ==> r == Url(Rewrite(Rewrite(tokenURI)))
    ensures fetch(Rewrite(tokenURI)) == Body(JNull) ==> r == Url("")
    ensures fetch(Rewrite(tokenURI)).Body? && HasStringImage(fetch(Rewrite(tokenURI)).json) ==>
      r == Url(Rewrite(fetch(Rewrite(tokenURI)).json.fields["image"].s))
    ensures (fetch(Rewrite(tokenURI)).Body? && fetch(Rewrite(tokenURI)).json != JNull &&
             !HasStringImage(fetch(Rewrite(tokenURI)).json)) ==> r == Rejected
    ensures r == ImageOf(tokenURI, fetch)
  {
    var url := Rewrite(tokenURI);
    // `None` is `undefined`.
    var newURL: Option<Json> := Some(JStr(""));
    match fetch(url) {
      case Body(json) =>
        match json {
          case JNull =>
            // reading `image` of null throws; the catch only logs it
          case JObj(fields) =>
            newURL := if "image" in fields then Some(fields["image"]) else None;
          case _ =>
            newURL := None;
        }
      case InvalidJson =>
        newURL := Some(JStr(url));
      case Failed =>
    }
    match newURL {
      case Some(JStr(s)) =>
        r := Url(Rewrite(s));
      case _ =>
        r := Rejected;
    }
  }

  /** The gateway prefix holds no `ipfs://` of its own, so rewriting a URI
      that starts with the scheme (and has no second one) gives its gateway
      URL, and rewriting that again changes nothing: the invalid-json fallback's
      double rewrite is harmless for such URIs. */
  lemma GatewayRewriteStable(rest: string)
    requires forall j :: 0 <= j <= |rest| ==> !OccursAt(rest, IpfsScheme, j)
    ensures Rewrite(IpfsScheme + rest) == IpfsGateway + rest
    ensures Rewrite(IpfsGateway + rest) == IpfsGateway + rest
    ensures Rewrite(Rewrite(IpfsScheme + rest)) == IpfsGateway + rest
  {
    ReplaceFirstAtStart(rest, IpfsScheme, IpfsGateway);
    var s := IpfsGateway + rest;
    forall j | 0 <= j <= |s| ensures !OccursAt(s, IpfsScheme, j) {
      if j + |IpfsScheme| > |s| {
      } else if j >= |IpfsGateway| {
        var k := j - |IpfsGateway|;
        assert s[j..j + |IpfsScheme|] == rest[k..k + |IpfsScheme|];
        assert !OccursAt(rest, IpfsScheme, k);
      } else {
        GatewayLetters(j);
        assert s[j..j + |IpfsScheme|][0] == s[j] && s[j..j + |IpfsScheme|][4] == s[j + 4];
        assert s[j] == IpfsGateway[j];
        assert j + 4 < |IpfsGateway| ==> s[j + 4] == IpfsGateway[j + 4];
      }
    }
    ReplaceFirstSpec(s, IpfsScheme, IpfsGateway);
  }

  /** No position of the gateway prefix can start an `ipfs://`: its 'i's are
      not followed, four places on, by a ':' inside the prefix. */
  lemma GatewayLetters(j: nat)
    requires j < |IpfsGateway|
    ensures IpfsGateway[j] != 'i' || (j + 4 < |IpfsGateway| && IpfsGateway[j + 4] != ':')
  {
  }

  /** The reshaping in uriHandler: address, network, token id and block
      forwarded as they are; `data` keeps its other fields and gets its
      `media` object back with `image` set to the fetched URL. The record
      goes on only when `data` and `media` are objects. */
  function Reshaped(t: TokenDoc, url: string): (r: Option<TokenDoc>)
    ensures r.Some? <==> t.data.JObj? && "media" in t.data.fields && t.data.fields["media"].JObj?
    ensures r.Some? ==> r.value.address == t.address && r.value.network == t.network &&
                        r.value.tokenId == t.tokenId && r.value.blockNumber == t.blockNumber
    ensures r.Some? ==> r.value.data.JObj? && r.value.data.fields.Keys == t.data.fields.Keys
    ensures r.Some? ==> forall k :: k in t.data.fields && k != "media" ==> r.value.data.fields[k] == t.data.fields[k]
    ensures r.Some? ==> var m := r.value.data.fields["media"];
      m.JObj? && m.fields.Keys == t.data.fields["media"].fields.Keys + {"image"} &&
      m.fields["image"] == JStr(url) &&
      (forall k :: k in m.fields && k != "image" ==> m.fields[k] == t.data.fields["media"].fields[k])
  {
    if t.data.JObj? && "media" in t.data.fields && t.data.fields["media"].JObj? then
      var media := t.data.fields["media"].fields;
      var other := t.data.fields - {"media"};
      Some(TokenDoc(t.address, t.network, t.tokenId, t.blockNumber,
                    JObj(other["media" := JObj(media["image" := JStr(url)])])))
    else None
  }

  /** `data.tokenURI` is a string: what uriHandler reads and fetches. */
  predicate HasStringURI(t: TokenDoc)
  {
    t.data.JObj? && "tokenURI" in t.data.fields && t.data.fields["tokenURI"].JStr?
  }

  /** The record uriHandler hands to methodHandler: the token reshaped with
      the image URL that fetchImageURL settles with; nothing when the URI is
      not a string, the fetch step rejects, or `media` is not an object. */
  function Forwarded(t: TokenDoc, fetch: string -> FetchResponse): (r: Option<TokenDoc>)
    ensures r.Some? <==> HasStringURI(t) && ImageOf(t.data.fields["tokenURI"].s, fetch).Url? &&
                         "media" in t.data.fields && t.data.fields["media"].JObj?
    ensures r.Some? ==> HasStringURI(t) && ImageOf(t.data.fields["tokenURI"].s, fetch).Url? &&
                        r == Reshaped(t, ImageOf(t.data.fields["tokenURI"].s, fetch).url)
  {
    if !HasStringURI(t) then None
    else
      match ImageOf(t.data.fields["tokenURI"].s, fetch)
      case Url(url) => Reshaped(t, url)
      case Rejected => None
  }

  /** uriHandler(data): read `data.tokenURI`, fetch the image URL, and pass
      the reshaped record to the store's methodHandler. */
  method UriHandler(db: Database, t: TokenDoc, fetch: string -> FetchResponse) returns (forwarded: Option<TokenDoc>)
    requires db.Valid()
    modifies db
    ensures db.Valid()
    ensures forwarded == Forwarded(t, fetch)
    ensures forwarded.Some? ==> db.tokens == MethodHandlerOn(old(db.tokens), forwarded.value)
    ensures forwarded.None? ==> db.tokens == old(db.tokens)
    ensures db.contracts == old(db.contracts) && db.events == old(db.events)
  {
    if !HasStringURI(t) {
      return None;
    }
    var image := FetchImageURL(t.data.fields["tokenURI"].s, fetch);
    if image.Rejected? {
      return None;
    }
    forwarded := Reshaped(t, image.url);
    if forwarded.Some? {
      db.MethodHandler(forwarded.value);
    }
  }

  /** A token whose URI is `ipfs://<cid>` and whose metadata, fetched from
      the gateway, names an `ipfs://<img>` image is forwarded (when `media`
      is an object) with the image's gateway URL in `media.image`, and with
      its other fields as they were. */
  lemma ForwardsGatewayImage(t: TokenDoc, fetch: string -> FetchResponse, cid: string, img: string)
    requires forall j :: 0 <= j <= |cid| ==> !OccursAt(cid, IpfsScheme, j)
    requires forall j :: 0 <= j <= |img| ==> !OccursAt(img, IpfsScheme, j)
    requires t.data.JObj? && "tokenURI" in t.data.fields && t.data.fields["tokenURI"] == JStr(IpfsScheme + cid)
    requires t.data.JObj? && "media" in t.data.fields && t.data.fields["media"].JObj?
    requires fetch(IpfsGateway + cid).Body? && HasStringImage(fetch(IpfsGateway + cid).json)
    requires fetch(IpfsGateway + cid).json.fields["image"].s == IpfsScheme + img
    ensures Forwarded(t, fetch).Some?
    ensures Forwarded(t, fetch).value.data.fields["media"].fields["image"] == JStr(IpfsGateway + img)
    ensures Forwarded(t, fetch).value.tokenId == t.tokenId && Forwarded(t, fetch).value.blockNumber == t.blockNumber
  {
    GatewayRewriteStable(cid);
    GatewayRewriteStable(img);
  }
}
