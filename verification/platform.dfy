/** `PlatformFactory.create_buyer` (main.py): the host part of the URL picks
    the buyer, and the chosen buyer is then constructed. */
module Platform {
  import opened Wrappers
  import opened Text
  import opened Environment
  import opened BuyErrors
  import Momo
  import PChome

  // ---------------------------------------------------------------------
  // The network location of a URL
  // ---------------------------------------------------------------------

  predicate IsAsciiLetter(c: char) {
    'a' <= c <= 'z' || 'A' <= c <= 'Z'
  }

  predicate IsSchemeChar(c: char) {
    IsAsciiLetter(c) || '0' <= c <= '9' || c == '+' || c == '-' || c == '.'
  }

  /** A scheme `urlsplit` recognises: an ASCII letter followed by letters,
      digits, "+", "-" or "." */
  predicate IsScheme(s: string) {
    |s| > 0 && IsAsciiLetter(s[0]) && forall k :: 0 <= k < |s| ==> IsSchemeChar(s[k])
  }

  predicate IsAuthorityDelimiter(c: char) {
    c == '/' || c == '?' || c == '#'
  }

  /** The URL after its scheme and colon, or the whole URL when the text
      before the first colon is not a scheme */
  function AfterScheme(url: string): (rest: string)
    ensures |rest| <= |url| && rest == url[|url| - |rest|..]
    ensures rest != url <==> IndexOf(url, ":").Some? && IsScheme(url[..IndexOf(url, ":").value])
    ensures rest != url ==> rest == url[IndexOf(url, ":").value + 1..]
  {
    match IndexOf(url, ":")
    case None => url
    case Some(i) => if IsScheme(url[..i]) then url[i + 1..] else url
  }

  /** The text up to the first "/", "?" or "#" */
  function Authority(s: string): (r: string)
    ensures r <= s
    ensures forall k :: 0 <= k < |r| ==> !IsAuthorityDelimiter(r[k])
    ensures |r| == |s| || IsAuthorityDelimiter(s[|r|])
  {
    if |s| == 0 || IsAuthorityDelimiter(s[0]) then ""
    else [s[0]] + Authority(s[1..])
  }

  /** `urlparse(url).netloc`: after the scheme, the text between a leading
      "//" and the first "/", "?" or "#"; empty when there is no "//" */
  function Netloc(url: string): (host: string)
    ensures forall k :: 0 <= k < |host| ==> !IsAuthorityDelimiter(host[k])
    ensures host != "" ==> OccursAt(AfterScheme(url), "//" + host, 0)
  {
    var rest := AfterScheme(url);
    if |rest| >= 2 && rest[0] == '/' && rest[1] == '/' then
      var host := Authority(rest[2..]);
      assert rest[..2 + |host|] == "//" + host;
      host
    else ""
  }

  /** The authority stops exactly at the end of a delimiter-free host */
  lemma {:induction false} AuthorityOfHost(host: string, rest: string)
    requires forall k :: 0 <= k < |host| ==> !IsAuthorityDelimiter(host[k])
    requires rest == [] || IsAuthorityDelimiter(rest[0])
    ensures Authority(host + rest) == host
  {
    if |host| > 0 {
      assert (host + rest)[1..] == host[1..] + rest;
      AuthorityOfHost(host[1..], rest);
    } else {
      assert host + rest == rest;
    }
  }

  /** Without a scheme before the first colon the URL is kept whole */
  lemma AfterSchemeOfNonScheme(url: string)
    requires IndexOf(url, ":").None? || !IsScheme(url[..IndexOf(url, ":").value])
    ensures AfterScheme(url) == url
  {
  }

  /** A recognised scheme and its colon are stripped */
  lemma AfterSchemeOfScheme(scheme: string, tail: string)
    requires IsScheme(scheme)
    ensures AfterScheme(scheme + ":" + tail) == tail
  {
    IndexOfMarker(scheme, ":", tail);
    assert (scheme + ":" + tail)[..|scheme|] == scheme;
  }

  /** After "//", the network location is the host up to its delimiter */
  lemma NetlocAfterSlashes(url: string, host: string, rest: string)
    requires AfterScheme(url) == "//" + host + rest
    requires forall k :: 0 <= k < |host| ==> !IsAuthorityDelimiter(host[k])
    requires rest == [] || IsAuthorityDelimiter(rest[0])
    ensures Netloc(url) == host
  {
    var tail := "//" + host + rest;
    assert tail[0] == '/' && tail[1] == '/';
    assert tail[2..] == host + rest;
    AuthorityOfHost(host, rest);
  }

  /** Round trip: the host written between "scheme://" and a path, query or
      fragment is the network location read back */
  lemma NetlocOfAbsoluteUrl(scheme: string, host: string, rest: string)
    requires IsScheme(scheme)
    requires forall k :: 0 <= k < |host| ==> !IsAuthorityDelimiter(host[k])
    requires rest == [] || IsAuthorityDelimiter(rest[0])
    ensures Netloc(scheme + "://" + host + rest) == host
  {
    var tail := "//" + host + rest;
    assert "://" == ":" + "//";
    assert scheme + "://" + host + rest == scheme + ":" + tail;
    AfterSchemeOfScheme(scheme, tail);
    NetlocAfterSlashes(scheme + "://" + host + rest, host, rest);
  }

  /** A URL without a colon and without a leading "//" has an empty network
      location */
  lemma NetlocOfSchemelessUrl(url: string)
    requires ':' !in url
    requires !(|url| >= 2 && url[0] == '/' && url[1] == '/')
    ensures Netloc(url) == ""
  {
    ContainsChar(url, ':');
    assert ":" == [':'];
  }

  // ---------------------------------------------------------------------
  // Platform selection
  // ---------------------------------------------------------------------

  datatype Site = PChomeSite | MomoSite

  const PChomeDomain := "24h.pchome.com.tw"
  const MomoDomain := "momoshop"

  /** The substring tests on the domain, PChome's first */
  function SelectSite(domain: string): (r: Result<Site, BuyError>)
    ensures r == Success(PChomeSite) <==> Contains(domain, PChomeDomain)
    ensures r == Success(MomoSite) <==> !Contains(domain, PChomeDomain) && Contains(domain, MomoDomain)
    ensures r.Failure? <==> !Contains(domain, PChomeDomain) && !Contains(domain, MomoDomain)
    ensures r.Failure? ==> r.error == UnsupportedPlatform(domain)
  {
    if Contains(domain, PChomeDomain) then Success(PChomeSite)
    else if Contains(domain, MomoDomain) then Success(MomoSite)
    else Failure(UnsupportedPlatform(domain))
  }

  /** A constructed buyer of either platform */
  datatype Buyer = OnPChome(pchome: PChome.PChomeBuyer) | OnMomo(momo: Momo.MomoBuyer)

  /** `PlatformFactory.create_buyer` */
  function CreateBuyer(url: string, env: Env): (r: Result<Buyer, BuyError>)
    ensures SelectSite(Netloc(url)).Failure? ==> r == Failure(UnsupportedPlatform(Netloc(url)))
    ensures SelectSite(Netloc(url)) == Success(PChomeSite) ==>
      && (r.Success? <==> PChome.NewBuyer(url, env).Success?)
      && (r.Success? ==> r.value == OnPChome(PChome.NewBuyer(url, env).value))
      && (r.Failure? ==> r.error == PChome.NewBuyer(url, env).error)
    ensures SelectSite(Netloc(url)) == Success(MomoSite) ==>
      && (r.Success? <==> Momo.NewBuyer(url, env).Success?)
      && (r.Success? ==> r.value == OnMomo(Momo.NewBuyer(url, env).value))
      && (r.Failure? ==> r.error == Momo.NewBuyer(url, env).error)
    ensures r.Success? ==> (r.value.OnPChome? <==> Contains(Netloc(url), PChomeDomain))
  {
    var site :- SelectSite(Netloc(url));
    match site
    case PChomeSite =>
      var b :- PChome.NewBuyer(url, env);
      Success(OnPChome(b))
    case MomoSite =>
      var b :- Momo.NewBuyer(url, env);
      Success(OnMomo(b))
  }

  /** Only the host selects the platform: whatever the path, query or
      fragment says, a host naming neither platform is rejected */
  lemma OnlyHostSelects(scheme: string, host: string, rest: string, env: Env)
    requires IsScheme(scheme)
    requires forall k :: 0 <= k < |host| ==> !IsAuthorityDelimiter(host[k])
    requires rest == [] || IsAuthorityDelimiter(rest[0])
    requires !Contains(host, PChomeDomain) && !Contains(host, MomoDomain)
    ensures CreateBuyer(scheme + "://" + host + rest, env) == Failure(UnsupportedPlatform(host))
  {
    NetlocOfAbsoluteUrl(scheme, host, rest);
  }

  /** A URL written without a scheme has no network location and is
      rejected, even when it names a platform */
  lemma SchemelessUrlRejected(url: string, env: Env)
    requires ':' !in url
    requires !(|url| >= 2 && url[0] == '/' && url[1] == '/')
    ensures CreateBuyer(url, env) == Failure(UnsupportedPlatform(""))
  {
    NetlocOfSchemelessUrl(url);
    MissingCharNotContained("", PChomeDomain, 0);
    MissingCharNotContained("", MomoDomain, 0);
  }

  /** A Momo product URL with credentials set builds a Momo buyer holding the
      URL's product code */
  lemma MomoUrlBuildsMomoBuyer(scheme: string, host: string, p: string, code: string, s: string, env: Env)
    requires IsScheme(scheme)
    requires forall k :: 0 <= k < |host| ==> !IsAuthorityDelimiter(host[k])
    requires !Contains(host, PChomeDomain) && Contains(host, MomoDomain)
    requires !Contains(scheme + "://" + host + "/" + p, Momo.ICodeMarker)
    requires !Contains(code, "&") && !Contains(code, Momo.ICodeMarker)
    requires s == [] || s[0] == '&'
    requires AllSet(env, Momo.CredentialKeys)
    ensures CreateBuyer(scheme + "://" + host + "/" + p + Momo.ICodeMarker + code + s, env).Success?
    ensures CreateBuyer(scheme + "://" + host + "/" + p + Momo.ICodeMarker + code + s, env).value.OnMomo?
    ensures CreateBuyer(scheme + "://" + host + "/" + p + Momo.ICodeMarker + code + s, env).value.momo.iCode == code
  {
    var url := scheme + "://" + host + "/" + p + Momo.ICodeMarker + code + s;
    var rest := "/" + p + Momo.ICodeMarker + code + s;
    assert url == scheme + "://" + host + rest;
    NetlocOfAbsoluteUrl(scheme, host, rest);
    Momo.ExtractICodeRoundTrip(scheme + "://" + host + "/" + p, code, s);
  }

  /** The platform fragments are matched case-sensitively and anywhere in the
      host: "x-momoshop.example" is a Momo host */
  lemma LooseMomoHost()
    ensures SelectSite("x-momoshop.example") == Success(MomoSite)
  {
    assert "x-momoshop.example" == "x-" + MomoDomain + ".example";
    OccursBetween("x-", MomoDomain, ".example");
    assert PChomeDomain[0] == '2';
    MissingCharNotContained("x-momoshop.example", PChomeDomain, 0);
  }

  /** An upper-case host is not recognised */
  lemma UpperCaseHostRejected()
    ensures SelectSite("MOMOSHOP.com") == Failure(UnsupportedPlatform("MOMOSHOP.com"))
  {
    assert PChomeDomain[0] == '2' && MomoDomain[4] == 's';
    MissingCharNotContained("MOMOSHOP.com", PChomeDomain, 0);
    MissingCharNotContained("MOMOSHOP.com", MomoDomain, 4);
  }

  /** "example.com" names neither platform */
  lemma ExampleHostNamesNoPlatform()
    ensures !Contains("example.com", PChomeDomain) && !Contains("example.com", MomoDomain)
  {
    assert PChomeDomain[0] == '2' && MomoDomain[4] == 's';
    MissingCharNotContained("example.com", PChomeDomain, 0);
    MissingCharNotContained("example.com", MomoDomain, 4);
  }

  /** "example.com" is a plain host */
  lemma ExampleHostIsPlain()
    ensures forall k :: 0 <= k < |"example.com"| ==> !IsAuthorityDelimiter("example.com"[k])
  {
  }

  /** A platform named only in the query does not select it: the URL
      "https://example.com/?momoshop" is rejected */
  // The URL is written as four pieces, scheme, "://", host and the rest,
  // so that the proof can reuse OnlyHostSelects without comparing a long
  // literal with a concatenation, which is costly for the solver.
  lemma QueryDoesNotSelect(env: Env)
    ensures CreateBuyer("https" + "://" + "example.com" + "/?momoshop", env) == Failure(UnsupportedPlatform("example.com"))
  {
    ExampleHostNamesNoPlatform();
    ExampleHostIsPlain();
    assert IsScheme("https");
    OnlyHostSelects("https", "example.com", "/?momoshop", env);
  }

  /** A domain naming both platforms goes to PChome */
  lemma PChomeMatchedFirst(a: string, b: string, c: string)
    ensures SelectSite(a + PChomeDomain + b + MomoDomain + c) == Success(PChomeSite)
  {
    assert a + PChomeDomain + b + MomoDomain + c == a + PChomeDomain + (b + MomoDomain + c);
    OccursBetween(a, PChomeDomain, b + MomoDomain + c);
  }
}
