/**
 * The embedded web server's configuration and access checks
 * (PingerTool/Classes/WebServer.cs): how the constructor derives the authentication
 * setting, the subnet allow-list and the bind URI; Dispose; the basic-authentication
 * validator; the subnet allow-list scan and the 403 response.
 * IPNetwork parsing and containment and the SHA-256 helper are foreign code and are
 * passed in as functions.
 */
module Web {
  import opened Wrappers
  import opened Strings

  /** The allow-list a server keeps when it is given none: { "127.0.0.0/8" }. */
  const DefaultSubnets: seq<string> := ["127.0.0.0/8"]

  /** The allow-list entry that admits every client. */
  const AnySubnet := "0.0.0.0/0"

  /** The wildcard bind address, rewritten to "localhost" for the host. */
  const Wildcard := "0.0.0.0"

  /** AuthDetails: the configured username and password (the password as its stored hash). */
  datatype Credentials = Credentials(username: string, password: string)

  /** What the Nancy host is started with: its base URI and the RewriteLocalhost flag. */
  datatype HostConfig = HostConfig(uri: string, rewriteLocalhost: bool)

  /** The identity a successful login yields (Claims are always null). */
  datatype UserIdentity = UserIdentity(userName: string)

  /** An HTTP response: status code and body text. */
  datatype Response = Response(statusCode: int, body: string)

  /** A string argument that is neither null nor empty. */
  predicate Present(s: Option<string>)
  {
    s.Some? && |s.value| >= 1
  }

  /** Authentication is switched on only when asked for with a username and a password. */
  function AuthEnabledFor(authentication: bool, username: Option<string>, password: Option<string>): (enabled: bool)
    ensures !authentication ==> !enabled
    ensures authentication && (!Present(username) || !Present(password)) ==> !enabled
    ensures authentication && Present(username) && Present(password) ==> enabled
  {
    authentication && Present(username) && Present(password)
  }

  /** The allow-list the constructor settles on: the default when the argument is null or
      empty, otherwise the argument split on ','. */
  function SubnetsFor(allowedSubnets: Option<string>): (r: seq<string>)
    ensures !Present(allowedSubnets) ==> r == DefaultSubnets
    ensures Present(allowedSubnets) ==>
      && |r| >= 1
      && Join(r, ",") == allowedSubnets.value
      && forall i :: 0 <= i < |r| ==> ',' !in r[i]
  {
    if !Present(allowedSubnets) then DefaultSubnets
    else
      var parts := Split(allowedSubnets.value, ',');
      JoinSplit(allowedSubnets.value, ',');
      SplitPiecesFree(allowedSubnets.value, ',');
      parts
  }

  /** The host configuration for a bind address: a wildcard address is bound through
      "localhost" with RewriteLocalhost set, any other address verbatim. */
  function HostConfigFor(bindAddress: string): (h: HostConfig)
    ensures StartsWith(h.uri, "http://")
    ensures h.rewriteLocalhost <==> Contains(bindAddress, Wildcard)
  {
    if Contains(bindAddress, Wildcard) then
      HostConfig("http://" + ReplaceAll(bindAddress, Wildcard, "localhost"), true)
    else
      HostConfig("http://" + bindAddress, false)
  }

  /** A string with no '0' in front of one without the wildcard has no wildcard either. */
  lemma {:induction false} NoWildcardBehind(front: string, back: string)
    requires forall k :: 0 <= k < |front| ==> front[k] != '0'
    requires !Contains(back, Wildcard)
    ensures !Contains(front + back, Wildcard)
    decreases |front|
  {
    if |front| > 0 {
      assert (front + back)[1..] == front[1..] + back;
      NoWildcardBehind(front[1..], back);
      assert (front + back)[0] == front[0];
    } else {
      assert front + back == back;
    }
  }

  /** Rewriting every wildcard to "localhost" leaves none behind. */
  lemma {:induction false} ReplaceRemovesWildcard(s: string)
    ensures !Contains(ReplaceAll(s, Wildcard, "localhost"), Wildcard)
    decreases |s|
  {
    var r := ReplaceAll(s, Wildcard, "localhost");
    if |s| == 0 {
    } else if StartsWith(s, Wildcard) {
      ReplaceRemovesWildcard(s[|Wildcard|..]);
      NoWildcardBehind("localhost", ReplaceAll(s[|Wildcard|..], Wildcard, "localhost"));
    } else {
      var rest := ReplaceAll(s[1..], Wildcard, "localhost");
      ReplaceRemovesWildcard(s[1..]);
      assert r == [s[0]] + rest;
      if StartsWith(r, Wildcard) {
        assert StartsWith(rest, Wildcard[1..]) by {
          assert rest[..|Wildcard| - 1] == r[1..|Wildcard|];
        }
        ReplacePrefixCopied(s[1..], Wildcard[1..], Wildcard, "localhost");
      }
      assert r[1..] == rest;
    }
  }

  /** The bind URI: always "http://" and the bind address, unchanged when it has no
      wildcard; with a wildcard, RewriteLocalhost is set and the URI holds no wildcard. */
  lemma HostConfigMeaning(bindAddress: string)
    ensures var h := HostConfigFor(bindAddress);
      && StartsWith(h.uri, "http://")
      && (h.rewriteLocalhost <==> Contains(bindAddress, Wildcard))
      && (!h.rewriteLocalhost ==> h.uri == "http://" + bindAddress)
      && (h.rewriteLocalhost ==> !Contains(h.uri, Wildcard))
  {
    var h := HostConfigFor(bindAddress);
    assert h.uri[..7] == "http://";
    if Contains(bindAddress, Wildcard) {
      ReplaceRemovesWildcard(bindAddress);
      NoWildcardBehind("http://", ReplaceAll(bindAddress, Wildcard, "localhost"));
    }
  }

  class WebServer {
    const allowedSubnets: seq<string>
    const authDetails: Credentials
    const bindAddress: string
    const authEnabled: bool

    var disposedValue: bool
    /** The running host, or None once disposed or when its URI was refused. */
    var server: Option<HostConfig>
    /** How many times the host's own Dispose has been called. */
    var hostDisposals: nat

    /** A disposed server holds no host. */
    ghost predicate Valid()
      reads this
    {
      disposedValue ==> server.None?
    }

    /**
     * Derives the configuration from the arguments and starts the host. `uriAccepted` says
     * whether the URI built from the bind address is accepted by the host; when it is not,
     * the error is reported and no host is kept.
     */
    constructor (bindAddress: string, allowedSubnets: Option<string>, authentication: bool,
                 username: Option<string>, password: Option<string>, uriAccepted: bool)
      ensures this.authEnabled == AuthEnabledFor(authentication, username, password)
      ensures this.authEnabled ==> this.authDetails == Credentials(username.value, password.value)
      ensures !this.authEnabled ==> this.authDetails == Credentials("", "")
      ensures this.allowedSubnets == SubnetsFor(allowedSubnets)
      ensures this.bindAddress == bindAddress
      ensures this.server == (if uriAccepted then Some(HostConfigFor(bindAddress)) else None)
      ensures !this.disposedValue && this.hostDisposals == 0
      ensures Valid()
    {
      if authentication && (!Present(username) || !Present(password)) {
        // authentication requested without credentials: it stays off
        this.authDetails := Credentials("", "");
        this.authEnabled := false;
      } else if authentication {
        this.authDetails := Credentials(username.value, password.value);
        this.authEnabled := true;
      } else {
        this.authDetails := Credentials("", "");
        this.authEnabled := false;
      }
      if !Present(allowedSubnets) {
        this.allowedSubnets := DefaultSubnets;
      } else {
        this.allowedSubnets := SubnetsFor(allowedSubnets);
      }
      this.bindAddress := bindAddress;
      this.disposedValue := false;
      this.hostDisposals := 0;
      if uriAccepted {
        if Contains(bindAddress, Wildcard) {
          this.server := Some(HostConfig("http://" + ReplaceAll(bindAddress, Wildcard, "localhost"), true));
        } else {
          this.server := Some(HostConfig("http://" + bindAddress, false));
        }
      } else {
        this.server := None;
      }
    }

    /** Disposes the host the first time; later calls change nothing. */
    method Dispose()
      requires Valid()
      modifies this
      ensures Valid()
      ensures disposedValue && server.None?
      ensures hostDisposals == old(hostDisposals) + (if !old(disposedValue) && old(server).Some? then 1 else 0)
      ensures old(disposedValue) ==> server == old(server) && hostDisposals == old(hostDisposals)
    {
      if !disposedValue {
        if server.Some? {
          hostDisposals := hostDisposals + 1;
        }
        server := None;
        disposedValue := true;
      }
    }
  }

  /**
   * UserValidator.Validate: `server` is the main window's web server, null when there is
   * no main window or no server. A login succeeds with the configured username and a
   * password whose hash is the configured password.
   */
  function Validate(server: WebServer?, username: string, password: string, hash: string -> string): (id: Option<UserIdentity>)
    ensures id.Some? <==> server != null && username == server.authDetails.username
                          && server.authDetails.password == hash(password)
    ensures id.Some? ==> id.value.userName == username
  {
    if server != null && username == server.authDetails.username
       && server.authDetails.password == hash(password)
    then Some(UserIdentity(username))
    else None
  }

  /** Validate does not look at AuthEnabled, but with authentication off the stored
      credentials are empty, so no login succeeds while hashes are never empty. */
  lemma DisabledAuthAdmitsNobody(server: WebServer, username: string, password: string, hash: string -> string)
    requires server.authDetails == Credentials("", "")
    requires hash(password) != ""
    ensures Validate(server, username, password, hash).None?
  {
  }

  /** Validate reads only the stored credentials, never AuthEnabled: two servers holding the
      same credentials answer every login alike whatever their AuthEnabled says, and a login
      matching them succeeds as that user. */
  lemma ValidateIgnoresAuthEnabled(server: WebServer, other: WebServer, username: string, password: string, hash: string -> string)
    requires server.authDetails == other.authDetails && server.authEnabled != other.authEnabled
    ensures Validate(server, username, password, hash) == Validate(other, username, password, hash)
    ensures username == server.authDetails.username && hash(password) == server.authDetails.password ==>
      Validate(server, username, password, hash) == Some(UserIdentity(username))
  {
  }

  /** For a server built by the constructor (which stores empty credentials whenever
      authentication is off), and hashes that are never empty, a login succeeds only with
      authentication on, and then exactly with the configured username and password. */
  lemma LoginNeedsAuthEnabled(server: WebServer, username: string, password: string, hash: string -> string)
    requires !server.authEnabled ==> server.authDetails == Credentials("", "")
    requires hash(password) != ""
    ensures Validate(server, username, password, hash).Some? ==> server.authEnabled
    ensures server.authEnabled ==>
      (Validate(server, username, password, hash).Some? <==>
         username == server.authDetails.username && hash(password) == server.authDetails.password)
  {
  }

  /** The outcome of the allow-list scan: a verdict, or IPNetwork.Parse throwing on an
      entry reached before any entry admitted the client. */
  datatype Checked = Returned(allowed: bool) | Threw

  /** An allow-list entry admits the client: it is "0.0.0.0/0", or it parses to a network
      that contains the client. */
  predicate Admits<N>(subnet: string, client: string, parse: string -> Option<N>, contains: (N, string) -> bool)
  {
    subnet == AnySubnet || (parse(subnet).Some? && contains(parse(subnet).value, client))
  }

  /** An allow-list entry the scan can get past: "0.0.0.0/0" or a parseable network. */
  predicate Parses<N>(subnet: string, parse: string -> Option<N>)
  {
    subnet == AnySubnet || parse(subnet).Some?
  }

  /** The scan over the allow-list, in order, stopping at the first admitting entry. */
  function Scan<N>(subnets: seq<string>, client: string, parse: string -> Option<N>, contains: (N, string) -> bool): (r: Checked)
    ensures AnySubnet in subnets ==> r != Returned(false)
    ensures |subnets| == 0 ==> r == Returned(false)
  {
    if |subnets| == 0 then Returned(false)
    else if subnets[0] == AnySubnet then Returned(true)
    else match parse(subnets[0])
      case None => Threw
      case Some(n) => if contains(n, client) then Returned(true) else Scan(subnets[1..], client, parse, contains)
  }

  /** The scan admits the client exactly when some entry admits it and every entry before
      that one parses; it refuses exactly when every entry parses and none admits. */
  lemma {:induction false} ScanMeaning<N>(subnets: seq<string>, client: string, parse: string -> Option<N>, contains: (N, string) -> bool)
    ensures Scan(subnets, client, parse, contains) == Returned(true) <==>
      exists i :: 0 <= i < |subnets| && Admits(subnets[i], client, parse, contains)
        && forall j :: 0 <= j < i ==> Parses(subnets[j], parse)
    ensures Scan(subnets, client, parse, contains) == Returned(false) <==>
      forall i :: 0 <= i < |subnets| ==> Parses(subnets[i], parse) && !Admits(subnets[i], client, parse, contains)
  {
    if |subnets| > 0 {
      var tail := subnets[1..];
      ScanMeaning(tail, client, parse, contains);
      if Scan(subnets, client, parse, contains) == Returned(true) && !Admits(subnets[0], client, parse, contains) {
        var i :| 0 <= i < |tail| && Admits(tail[i], client, parse, contains)
          && forall j :: 0 <= j < i ==> Parses(tail[j], parse);
        assert Admits(subnets[i + 1], client, parse, contains);
        forall j | 0 <= j < i + 1 ensures Parses(subnets[j], parse) {
          if j > 0 {
            assert subnets[j] == tail[j - 1];
          }
        }
      }
      if exists i :: 0 <= i < |subnets| && Admits(subnets[i], client, parse, contains)
          && forall j :: 0 <= j < i ==> Parses(subnets[j], parse) {
        var i :| 0 <= i < |subnets| && Admits(subnets[i], client, parse, contains)
          && forall j :: 0 <= j < i ==> Parses(subnets[j], parse);
        if i > 0 && !Admits(subnets[0], client, parse, contains) {
          assert Admits(tail[i - 1], client, parse, contains);
          forall j | 0 <= j < i - 1 ensures Parses(tail[j], parse) {
            assert tail[j] == subnets[j + 1];
          }
        }
      }
      if forall i :: 0 <= i < |tail| ==> Parses(tail[i], parse) && !Admits(tail[i], client, parse, contains) {
        if Parses(subnets[0], parse) && !Admits(subnets[0], client, parse, contains) {
          forall i | 0 <= i < |subnets| ensures Parses(subnets[i], parse) && !Admits(subnets[i], client, parse, contains) {
            if i > 0 {
              assert subnets[i] == tail[i - 1];
            }
          }
        }
      }
      if forall i :: 0 <= i < |subnets| ==> Parses(subnets[i], parse) && !Admits(subnets[i], client, parse, contains) {
        forall i | 0 <= i < |tail| ensures Parses(tail[i], parse) && !Admits(tail[i], client, parse, contains) {
          assert tail[i] == subnets[i + 1];
        }
      }
    }
  }

  /**
   * WebModule.CheckWhitelisted: a null client is refused; otherwise the server's allow-list
   * is scanned in order.
   */
  method CheckWhitelisted<N>(server: WebServer, client: Option<string>, parse: string -> Option<N>,
                             contains: (N, string) -> bool) returns (r: Checked)
    ensures client.None? ==> r == Returned(false)
    ensures client.Some? ==> r == Scan(server.allowedSubnets, client.value, parse, contains)
  {
    if client.None? {
      return Returned(false);
    }
    var subnets := server.allowedSubnets;
    var i := 0;
    while i < |subnets|
      invariant 0 <= i <= |subnets|
      invariant Scan(subnets, client.value, parse, contains) == Scan(subnets[i..], client.value, parse, contains)
    {
      assert subnets[i..][1..] == subnets[i + 1..];
      if subnets[i] == AnySubnet {
        return Returned(true);
      }
      var network := parse(subnets[i]);
      if network.None? {
        return Threw;
      }
      if contains(network.value, client.value) {
        return Returned(true);
      }
      i := i + 1;
    }
    return Returned(false);
  }

  /** With the default allow-list only clients inside 127.0.0.0/8 get in. */
  lemma DefaultAdmitsLoopbackOnly<N>(client: string, parse: string -> Option<N>, contains: (N, string) -> bool)
    requires parse(DefaultSubnets[0]).Some?
    ensures Scan(DefaultSubnets, client, parse, contains)
      == Returned(contains(parse(DefaultSubnets[0]).value, client))
  {
    assert DefaultSubnets[0] != AnySubnet;
  }

  /** WebModule.ThrowUnauthorized: a 403 Forbidden response with the refusal text. */
  function ThrowUnauthorized(): (r: Response)
    ensures r.statusCode == 403
    ensures StartsWith(r.body, "HTTP 403 Unauthorized.")
  {
    var heading := "HTTP 403 Unauthorized.";
    var body := heading + "<br />Your IP is not approved to access this facility\r\n";
    assert body[..|heading|] == heading;
    Response(403, body)
  }
}
