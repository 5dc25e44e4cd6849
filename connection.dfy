/**
 * The connection settings of the client and the URL every request is posted to:
 * `http://{host}:{port}/?database={database}[&format={format}][&user={user}][&password={password}]`.
 * Nothing is escaped: the settings are pasted into the URL as they are.
 */
module Connection {
  import opened Wrappers
  import opened Text

  const DefaultPort: int := 8123
  const DefaultDatabase: string := "default"
  const DefaultUser: string := "default"
  const DefaultPassword: string := ""

  /** Host, port, database and credentials; never changed after construction. */
  datatype Config = Config(host: string, port: int, database: string, user: string, password: string)

  /** The settings a client made with only a host gets. */
  function WithDefaults(host: string): (c: Config)
    ensures c.host == host && c.port == 8123 && c.database == "default"
    ensures c.user == "default" && c.password == ""
  {
    Config(host, DefaultPort, DefaultDatabase, DefaultUser, DefaultPassword)
  }

  /** `http://{host}:{port}`, the port written in decimal. */
  function BaseUrl(c: Config): string
  {
    "http://" + c.host + ":" + IntToDecimal(c.port)
  }

  /** One `name=value` query parameter. */
  datatype Param = Param(name: string, value: string)

  /** The parameters every request opens with: the database, then the response format when there is one. */
  function LeadParams(c: Config, format: Option<string>): seq<Param>
  {
    [Param("database", c.database)] + (if format.Some? then [Param("format", format.value)] else [])
  }

  /** The credentials, each only when it is not empty: the user, then the password. */
  function Credentials(c: Config): seq<Param>
  {
    (if c.user != "" then [Param("user", c.user)] else [])
    + (if c.password != "" then [Param("password", c.password)] else [])
  }

  /** The query parameters of a request, in the order they are written. */
  function Params(c: Config, format: Option<string>): seq<Param>
  {
    LeadParams(c, format) + Credentials(c)
  }

  function ParamText(p: Param): string
  {
    p.name + "=" + p.value
  }

  function ParamTexts(ps: seq<Param>): (ts: seq<string>)
    ensures |ts| == |ps|
  {
    seq(|ps|, i requires 0 <= i < |ps| => ParamText(ps[i]))
  }

  /** The full request URL: the base URL, `/?` and the parameters joined with `&`. */
  function Url(c: Config, format: Option<string>): string
  {
    BaseUrl(c) + "/?" + Join(ParamTexts(Params(c, format)), "&")
  }

  /** Names of the parameters, in order. */
  function Names(ps: seq<Param>): (ns: seq<string>)
    ensures |ns| == |ps|
  {
    seq(|ps|, i requires 0 <= i < |ps| => ps[i].name)
  }

  /**
   * The URL as the client grows it: the base with the database (and format), then
   * `&user=` and `&password=` appended only for non-empty credentials.
   */
  method RequestUrl(c: Config, format: Option<string>) returns (url: string)
    ensures url == Url(c, format)
  {
    url := BaseUrl(c) + "/?database=" + c.database;
    assert url == BaseUrl(c) + "/?" + Join(ParamTexts([Param("database", c.database)]), "&");
    if format.Some? {
      url := AppendParam(url, BaseUrl(c), [Param("database", c.database)], "&format=", Param("format", format.value));
    }
    url := AppendCredentials(url, BaseUrl(c), LeadParams(c, format), c);
  }

  /** Appends `&user=...` and `&password=...`, each only when that credential is not empty. */
  method AppendCredentials(url: string, ghost base: string, ghost ps: seq<Param>, c: Config)
    returns (url': string)
    requires ps != []
    requires url == base + "/?" + Join(ParamTexts(ps), "&")
    ensures url' == base + "/?" + Join(ParamTexts(ps + Credentials(c)), "&")
  {
    url' := url;
    ghost var qs := ps;
    if c.user != "" {
      url' := AppendParam(url', base, qs, "&user=", Param("user", c.user));
      qs := qs + [Param("user", c.user)];
    }
    if c.password != "" {
      url' := AppendParam(url', base, qs, "&password=", Param("password", c.password));
      qs := qs + [Param("password", c.password)];
    }
    assert qs == ps + Credentials(c);
  }

  /** `url += "&name=value"` on a URL that already carries the parameters `ps`. */
  method AppendParam(url: string, ghost base: string, ghost ps: seq<Param>, key: string, p: Param)
    returns (url': string)
    requires ps != []
    requires url == base + "/?" + Join(ParamTexts(ps), "&")
    requires key == "&" + p.name + "="
    ensures url' == base + "/?" + Join(ParamTexts(ps + [p]), "&")
  {
    url' := url + key + p.value;
    assert ParamTexts(ps + [p]) == ParamTexts(ps) + [ParamText(p)];
    JoinSnoc(ParamTexts(ps), ParamText(p), "&");
  }

  /**
   * The format, the user and the password each appear among the parameters exactly
   * when they are given (a format) or not empty (a credential).
   */
  lemma ParamsPresence(c: Config, format: Option<string>)
    ensures var ns := Names(Params(c, format));
      && ("format" in ns <==> format.Some?)
      && ("user" in ns <==> c.user != "")
      && ("password" in ns <==> c.password != "")
  {
    var f := if format.Some? then ["format"] else [];
    var u := if c.user != "" then ["user"] else [];
    var p := if c.password != "" then ["password"] else [];
    assert Names(Params(c, format)) == ["database"] + f + u + p;
  }

  /**
   * The parameter list always starts with the database; the format, when given, comes
   * right after it; a user parameter carries the configured user and comes right after
   * the database and format; a password parameter carries the configured password and
   * comes last.
   */
  lemma ParamsOrder(c: Config, format: Option<string>)
    ensures var ps := Params(c, format);
      && ps[0] == Param("database", c.database)
      && (format.Some? ==> ps[1] == Param("format", format.value))
      && (forall i :: 0 <= i < |ps| && ps[i].name == "user" ==>
            ps[i].value == c.user && i == |LeadParams(c, format)|)
      && (forall i :: 0 <= i < |ps| && ps[i].name == "password" ==>
            ps[i].value == c.password && i == |ps| - 1)
  {
  }
}
