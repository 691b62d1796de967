/** `SecurityConfig`: the per-route access table and the CORS method list.
    Spring's ant matcher is replaced by a simpler one: a pattern made of a
    base `P` followed by the `Wildcard` suffix matches `P` itself and every
    path below `P/`; any other pattern matches only the identical path. */
module SecurityConfig {
  import opened Results

  /** Spring's `HttpMethod`. */
  datatype HttpMethod = GET | HEAD | POST | PUT | PATCH | DELETE | OPTIONS | TRACE

  datatype Access = Public | Authenticated

  /** One entry of the `authorizeRequests()` chain: an optional method
      restriction, a path pattern and the access it grants. */
  datatype Rule = Rule(verb: Option<HttpMethod>, pattern: string, access: Access)

  const PublicMatchers: seq<string> := ["/h2-console/**"]
  const PublicMatchersGet: seq<string> := ["/categorias/**", "/produtos/**", "/estados/**"]
  const PublicMatchersPost: seq<string> := ["/clientes", "/auth/forgot/**"]

  const Wildcard: string := "/**"

  /** `path` is `base` or lies below `base/`. */
  predicate Under(base: string, path: string) {
    path == base || base + "/" <= path
  }

  /** The simplified ant matcher. */
  predicate Matches(pattern: string, path: string) {
    if |pattern| >= |Wildcard| && pattern[|pattern| - |Wildcard|..] == Wildcard
    then Under(pattern[..|pattern| - |Wildcard|], path)
    else path == pattern
  }

  /** A wildcard pattern matches exactly the paths under its base. */
  lemma MatchesWildcard(base: string, path: string)
    ensures Matches(base + Wildcard, path) <==> Under(base, path)
  {
  }

  /** `antMatchers(method, patterns...).permitAll()`. */
  function PermitAll(verb: Option<HttpMethod>, patterns: seq<string>): (r: seq<Rule>)
    ensures |r| == |patterns|
    ensures forall i :: 0 <= i < |r| ==> r[i] == Rule(verb, patterns[i], Public)
  {
    seq(|patterns|, i requires 0 <= i < |patterns| => Rule(verb, patterns[i], Public))
  }

  /** A `permitAll()` group opens exactly the requests whose method it
      admits and whose path one of its patterns matches. */
  lemma PermitAllOpens(verb: Option<HttpMethod>, patterns: seq<string>, m: HttpMethod, path: string)
    ensures forall i :: 0 <= i < |PermitAll(verb, patterns)| ==> PermitAll(verb, patterns)[i].access == Public
    ensures (exists i :: 0 <= i < |PermitAll(verb, patterns)| && Applies(PermitAll(verb, patterns)[i], m, path))
            <==> (verb.None? || verb == Some(m)) && exists q :: q in patterns && Matches(q, path)
  {
    var r := PermitAll(verb, patterns);
    if (verb.None? || verb == Some(m)) && exists q :: q in patterns && Matches(q, path) {
      var q :| q in patterns && Matches(q, path);
      var i :| 0 <= i < |patterns| && patterns[i] == q;
      assert Applies(r[i], m, path);
    }
  }

  /** The chain of `configure(HttpSecurity)`, in registration order. */
  const Chain: seq<Rule> :=
    PermitAll(None, PublicMatchers)
    + PermitAll(Some(GET), PublicMatchersGet)
    + PermitAll(Some(POST), PublicMatchersPost)

  predicate Applies(r: Rule, m: HttpMethod, path: string) {
    (r.verb.None? || r.verb == Some(m)) && Matches(r.pattern, path)
  }

  /** The first applicable rule decides; `anyRequest().authenticated()`
      closes the chain, so a request no rule covers needs authentication. */
  function Decide(rules: seq<Rule>, m: HttpMethod, path: string): (a: Access)
    ensures a == Public ==> exists i :: 0 <= i < |rules| && Applies(rules[i], m, path) && rules[i].access == Public
    ensures (forall i :: 0 <= i < |rules| ==> !Applies(rules[i], m, path)) ==> a == Authenticated
    ensures (exists i :: 0 <= i < |rules| && Applies(rules[i], m, path)) && (forall i :: 0 <= i < |rules| ==> rules[i].access == Public) ==> a == Public
    ensures forall i :: 0 <= i < |rules| && Applies(rules[i], m, path) && (forall j :: 0 <= j < i ==> !Applies(rules[j], m, path)) ==> a == rules[i].access
  {
    if |rules| == 0 then Authenticated
    else if Applies(rules[0], m, path) then rules[0].access
    else
      var a := Decide(rules[1..], m, path);
      assert forall i :: 1 <= i < |rules| ==> rules[i] == rules[1..][i - 1];
      a
  }

  /** The access the application's chain gives a request: public exactly
      for the listed routes, authentication for everything else. */
  function Classify(m: HttpMethod, path: string): (a: Access)
    ensures a == Public <==> IsPublicRoute(m, path)
    ensures !IsPublicRoute(m, path) ==> a == Authenticated
  {
    ChainPublicIff(m, path);
    Decide(Chain, m, path)
  }

  /** The routes left open without a token, stated directly. */
  predicate IsPublicRoute(m: HttpMethod, path: string) {
    || Under("/h2-console", path)
    || (m == GET && (Under("/categorias", path) || Under("/produtos", path) || Under("/estados", path)))
    || (m == POST && (path == "/clientes" || Under("/auth/forgot", path)))
  }

  /** The chain entry by entry. */
  lemma ChainEntries()
    ensures |Chain| == 6
    ensures Chain[0] == Rule(None, "/h2-console" + Wildcard, Public)
    ensures Chain[1] == Rule(Some(GET), "/categorias" + Wildcard, Public)
    ensures Chain[2] == Rule(Some(GET), "/produtos" + Wildcard, Public)
    ensures Chain[3] == Rule(Some(GET), "/estados" + Wildcard, Public)
    ensures Chain[4] == Rule(Some(POST), "/clientes", Public)
    ensures Chain[5] == Rule(Some(POST), "/auth/forgot" + Wildcard, Public)
  {
  }

  /** The pattern "/clientes" carries no wildcard, so it matches only itself. */
  lemma ExactClientes(path: string)
    ensures Matches("/clientes", path) <==> path == "/clientes"
  {
  }

  /** With only permitting entries, the chain makes a request public
      exactly when some entry applies to it. */
  lemma ChainByEntries(m: HttpMethod, path: string)
    ensures Decide(Chain, m, path) == Public <==> exists i :: 0 <= i < |Chain| && Applies(Chain[i], m, path)
  {
    ChainEntries();
    assert forall i :: 0 <= i < |Chain| ==> Chain[i].access == Public;
  }

  /** One entry of the chain opens only listed routes. */
  lemma EntryOpensOnlyPublicRoutes(i: nat, m: HttpMethod, path: string)
    requires i < |Chain| && Applies(Chain[i], m, path)
    ensures IsPublicRoute(m, path)
  {
    ChainEntries();
    if i == 0 {
      MatchesWildcard("/h2-console", path);
    } else if i == 1 {
      MatchesWildcard("/categorias", path);
    } else if i == 2 {
      MatchesWildcard("/produtos", path);
    } else if i == 3 {
      MatchesWildcard("/estados", path);
    } else if i == 4 {
      ExactClientes(path);
    } else {
      MatchesWildcard("/auth/forgot", path);
    }
  }

  /** Every entry of the chain opens only listed routes. */
  lemma EntriesOpenOnlyPublicRoutes(m: HttpMethod, path: string)
    ensures (exists i :: 0 <= i < |Chain| && Applies(Chain[i], m, path)) ==> IsPublicRoute(m, path)
  {
    if i :| 0 <= i < |Chain| && Applies(Chain[i], m, path) {
      EntryOpensOnlyPublicRoutes(i, m, path);
    }
  }

  /** Every listed route is opened by some entry of the chain. */
  lemma PublicRoutesHaveEntries(m: HttpMethod, path: string)
    ensures IsPublicRoute(m, path) ==> exists i :: 0 <= i < |Chain| && Applies(Chain[i], m, path)
  {
    ChainEntries();
    MatchesWildcard("/h2-console", path);
    MatchesWildcard("/categorias", path);
    MatchesWildcard("/produtos", path);
    MatchesWildcard("/estados", path);
    MatchesWildcard("/auth/forgot", path);
    ExactClientes(path);
    if Under("/h2-console", path) {
      assert Applies(Chain[0], m, path);
    } else if m == GET && Under("/categorias", path) {
      assert Applies(Chain[1], m, path);
    } else if m == GET && Under("/produtos", path) {
      assert Applies(Chain[2], m, path);
    } else if m == GET && Under("/estados", path) {
      assert Applies(Chain[3], m, path);
    } else if m == POST && path == "/clientes" {
      assert Applies(Chain[4], m, path);
    } else if m == POST && Under("/auth/forgot", path) {
      assert Applies(Chain[5], m, path);
    }
  }

  /** A request is public exactly when it is one of the listed routes;
      every other request requires authentication. */
  lemma ChainPublicIff(m: HttpMethod, path: string)
    ensures Decide(Chain, m, path) == Public <==> IsPublicRoute(m, path)
    ensures !IsPublicRoute(m, path) ==> Decide(Chain, m, path) == Authenticated
  {
    ChainByEntries(m, path);
    EntriesOpenOnlyPublicRoutes(m, path);
    PublicRoutesHaveEntries(m, path);
  }

  /** POST to the sign-up path is public. */
  lemma SignUpIsPublicForPost()
    ensures Classify(POST, "/clientes") == Public
  {
  }

  /** GET to the sign-up path needs a token. */
  lemma SignUpIsProtectedForGet()
    ensures Classify(GET, "/clientes") == Authenticated
  {
    NotUnder("/h2-console", "/clientes", 1);
    NotUnder("/categorias", "/clientes", 2);
    NotUnder("/produtos", "/clientes", 1);
    NotUnder("/estados", "/clientes", 1);
    assert !IsPublicRoute(GET, "/clientes");
  }

  /** A catalogue path is public for GET. */
  lemma CatalogueIsPublicForGet()
    ensures Classify(GET, "/categorias/x") == Public
  {
    UnderChild("/categorias", "x");
    assert "/categorias" + "/" + "x" == "/categorias/x";
  }

  /** The same catalogue path needs a token for POST. */
  lemma CatalogueIsProtectedForPost()
    ensures Classify(POST, "/categorias/x") == Authenticated
  {
    NotUnder("/h2-console", "/categorias/x", 1);
    NotUnder("/clientes", "/categorias/x", 2);
    NotUnder("/auth/forgot", "/categorias/x", 1);
  }

  /** A child of `base` is under it. */
  lemma UnderChild(base: string, child: string)
    ensures Under(base, base + "/" + child)
  {
  }

  /** A path that differs from `base/` at some position is not under
      `base`. */
  lemma NotUnder(base: string, path: string, k: nat)
    requires k <= |base| && k < |path| && (base + "/")[k] != path[k]
    ensures !Under(base, path)
  {
  }


  /** The console is open to every method. */
  lemma ConsoleIsPublicForEveryMethod(m: HttpMethod)
    ensures Classify(m, "/h2-console/x") == Public
  {
    UnderChild("/h2-console", "x");
  }

  /** Sharing a prefix with a public base is not enough. */
  lemma PrefixSiblingIsNotPublic()
    ensures Classify(GET, "/produtosx") == Authenticated
  {
    NotUnder("/produtos", "/produtosx", 9);
    NotUnder("/categorias", "/produtosx", 1);
    NotUnder("/estados", "/produtosx", 1);
    NotUnder("/h2-console", "/produtosx", 1);
    assert !IsPublicRoute(GET, "/produtosx");
  }


  /** Names of the methods given to `setAllowedMethods`. */
  const CorsAllowedMethods: seq<string> := ["POST", "GET", "PUT", "DELETE", "OPTIONS"]

  function MethodName(m: HttpMethod): string {
    match m
    case GET => "GET"
    case HEAD => "HEAD"
    case POST => "POST"
    case PUT => "PUT"
    case PATCH => "PATCH"
    case DELETE => "DELETE"
    case OPTIONS => "OPTIONS"
    case TRACE => "TRACE"
  }

  /** Whether a cross-origin request with this method is allowed. */
  function CorsAllows(m: HttpMethod): (ok: bool)
    ensures ok <==> m in {POST, GET, PUT, DELETE, OPTIONS}
  {
    MethodName(m) in CorsAllowedMethods
  }
}
