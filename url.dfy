/**
  `GetUrl` of client.go: the websocket URL of a socket.io server, built from
  a scheme chosen by the TLS flag, the host, a colon, the port in decimal and
  the fixed engine.io query.  `ParseUrl` reads such a URL back; together they
  show that no information is lost or invented by the builder.
*/
module ClientUrl {
  import opened Wrappers
  import opened Strconv

  const WebSocketProtocol := "ws://"
  const WebSocketSecureProtocol := "wss://"
  const SocketioUrl := "/socket.io/?EIO=3&transport=websocket"

  predicate StartsWith(s: string, prefix: string) {
    |prefix| <= |s| && s[..|prefix|] == prefix
  }

  predicate EndsWith(s: string, suffix: string) {
    |suffix| <= |s| && s[|s| - |suffix|..] == suffix
  }

  function Scheme(secure: bool): string {
    if secure then WebSocketSecureProtocol else WebSocketProtocol
  }

  /** The part of a URL that `GetUrl` takes from its host and port arguments. */
  function Authority(host: string, port: int): string {
    host + ":" + IntToDecimal(port)
  }

  function GetUrl(host: string, port: int, secure: bool): (url: string)
    ensures secure <==> StartsWith(url, WebSocketSecureProtocol)
    ensures !secure <==> StartsWith(url, WebSocketProtocol)
    ensures EndsWith(url, SocketioUrl)
  {
    var url := Scheme(secure) + Authority(host, port) + SocketioUrl;
    Framing(Scheme(secure), Authority(host, port), SocketioUrl);
    assert secure ==> url[2] == 's';
    assert !secure ==> url[2] == ':';
    url
  }

  /** Where the three parts of a concatenation sit in it. */
  lemma Framing<T>(a: seq<T>, b: seq<T>, c: seq<T>)
    ensures var s := a + b + c;
      s[..|a|] == a && s[|a|..] == b + c && s[|s| - |c|..] == c && s[|a|..|s| - |c|] == b &&
      s == a + (b + c)
  {
  }

  /** Removing the scheme and the query from a built URL leaves host, colon and port. */
  lemma GetUrlAuthority(host: string, port: int, secure: bool)
    ensures var url := GetUrl(host, port, secure);
      |Scheme(secure)| + |SocketioUrl| <= |url| &&
      url[|Scheme(secure)|..|url| - |SocketioUrl|] == Authority(host, port)
  {
  }

  /** The index of the last occurrence of `c` in `s`. */
  function LastIndexOf(s: string, c: char): (r: Option<nat>)
    ensures r.Some? ==> r.value < |s| && s[r.value] == c
    ensures r.Some? ==> forall j | r.value < j < |s| :: s[j] != c
    ensures r.None? ==> forall j | 0 <= j < |s| :: s[j] != c
  {
    if s == [] then None
    else if s[|s| - 1] == c then Some(|s| - 1)
    else LastIndexOf(s[..|s| - 1], c)
  }

  datatype Endpoint = Endpoint(host: string, port: int, secure: bool)

  /** The TLS flag a URL's scheme announces and the text after the scheme. */
  function SplitScheme(url: string): (r: Option<(bool, string)>)
    ensures r.Some? ==> url == Scheme(r.value.0) + r.value.1
  {
    if StartsWith(url, WebSocketSecureProtocol) then
      Some((true, url[|WebSocketSecureProtocol|..]))
    else if StartsWith(url, WebSocketProtocol) then
      Some((false, url[|WebSocketProtocol|..]))
    else None
  }

  /** The text before the engine.io query. */
  function StripQuery(rest: string): (r: Option<string>)
    ensures r.Some? ==> rest == r.value + SocketioUrl
  {
    if EndsWith(rest, SocketioUrl) then
      var a := rest[..|rest| - |SocketioUrl|];
      assert rest == a + rest[|rest| - |SocketioUrl|..];
      Some(a)
    else None
  }

  /** Host and port of `host:port`, splitting at the last colon. */
  function SplitAuthority(authority: string): (r: Option<(string, int)>)
    ensures r.Some? ==> authority == Authority(r.value.0, r.value.1)
  {
    var k := LastIndexOf(authority, ':');
    if k.None? then None
    else
      var port := ParseInt(authority[k.value + 1..]);
      if port.None? then None
      else
        ToDecimalOfParseInt(authority[k.value + 1..], port.value);
        assert authority == authority[..k.value] + ":" + authority[k.value + 1..];
        Some((authority[..k.value], port.value))
  }

  /** Splits a URL of the form `GetUrl` builds; the port must be canonical decimal. */
  function ParseUrl(url: string): (r: Option<Endpoint>)
  {
    var scheme := SplitScheme(url);
    if scheme.None? then None
    else
      var authority := StripQuery(scheme.value.1);
      if authority.None? then None
      else
        var hostPort := SplitAuthority(authority.value);
        if hostPort.None? then None
        else Some(Endpoint(hostPort.value.0, hostPort.value.1, scheme.value.0))
  }

  lemma {:induction false} LastColonOfAuthority(host: string, port: int)
    ensures LastIndexOf(Authority(host, port), ':') == Some(|host|)
  {
    var a := Authority(host, port);
    var digits := IntToDecimal(port);
    forall j | |host| < j < |a| ensures a[j] != ':' {
      IntToDecimalChars(port, j - |host| - 1);
      assert a[j] == digits[j - |host| - 1];
    }
    LastIndexAfter(a, ':', |host|);
  }

  lemma LastIndexAfter(s: string, c: char, k: nat)
    requires k < |s| && s[k] == c
    requires forall j | k < j < |s| :: s[j] != c
    ensures LastIndexOf(s, c) == Some(k)
  {
  }

  lemma SplitAuthorityOf(host: string, port: int)
    ensures SplitAuthority(Authority(host, port)) == Some((host, port))
  {
    var a := Authority(host, port);
    LastColonOfAuthority(host, port);
    assert a[|host| + 1..] == IntToDecimal(port);
    assert a[..|host|] == host;
    ParseIntToDecimal(port);
  }

  lemma SplitSchemeOf(secure: bool, rest: string)
    ensures SplitScheme(Scheme(secure) + rest) == Some((secure, rest))
  {
    var url := Scheme(secure) + rest;
    Framing(Scheme(secure), rest, []);
    assert url + [] == url;
    if !secure {
      assert url[2] == ':';
    }
  }

  lemma StripQueryOf(authority: string)
    ensures StripQuery(authority + SocketioUrl) == Some(authority)
  {
  }

  /** Reading back a built URL recovers host, port and TLS flag. */
  lemma ParseGetUrl(host: string, port: int, secure: bool)
    ensures ParseUrl(GetUrl(host, port, secure)) == Some(Endpoint(host, port, secure))
  {
    Framing(Scheme(secure), Authority(host, port), SocketioUrl);
    SplitSchemeOf(secure, Authority(host, port) + SocketioUrl);
    StripQueryOf(Authority(host, port));
    SplitAuthorityOf(host, port);
  }

  /** Every URL that `ParseUrl` accepts is exactly the one `GetUrl` builds from its parts. */
  lemma GetUrlOfParse(url: string)
    ensures ParseUrl(url).Some? ==>
      var e := ParseUrl(url).value;
      GetUrl(e.host, e.port, e.secure) == url
  {
    if ParseUrl(url).None? {
      return;
    }
    var e := ParseUrl(url).value;
    var rest := SplitScheme(url).value.1;
    var authority := StripQuery(rest).value;
    assert authority == Authority(e.host, e.port);
    Framing(Scheme(e.secure), authority, SocketioUrl);
  }
}
