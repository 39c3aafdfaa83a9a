/**
 * `ConfigGenerator::create_config`: the router configuration file written at
 * bootstrap, as a document of INI sections and as the text it renders to.
 */
module ConfigWriter {
  import opened Text
  import opened ConfigOptions

  const Header: string := "# File automatically generated during MySQL Router bootstrap\n"
  const MetadataTtl: nat := 300
  const AnyAddress: string := "0.0.0.0"

  /** `key=value`, or the `key = value` spelling the logger section uses. */
  datatype Line = Setting(key: string, value: string) | Spaced(key: string, value: string)

  datatype Section = Section(name: string, lines: seq<Line>)

  function SettingLine(key: string, value: string): string
  {
    key + "=" + value + "\n"
  }

  function Heading(name: string): string
  {
    "[" + name + "]\n"
  }

  function RenderLine(l: Line): string
  {
    match l
    case Setting(k, v) => SettingLine(k, v)
    case Spaced(k, v) => k + " = " + v + "\n"
  }

  function RenderLines(ls: seq<Line>): string
  {
    if ls == [] then "" else RenderLine(ls[0]) + RenderLines(ls[1..])
  }

  /** A section is its `[name]` line, its settings and a blank line. */
  function RenderSection(s: Section): string
  {
    Heading(s.name) + RenderLines(s.lines) + "\n"
  }

  function RenderSections(ss: seq<Section>): string
  {
    if ss == [] then "" else RenderSection(ss[0]) + RenderSections(ss[1..])
  }

  function Render(ss: seq<Section>): string
  {
    Header + RenderSections(ss)
  }

  // ---------------------------------------------------------------------
  // The sections of the bootstrap configuration
  // ---------------------------------------------------------------------

  /** A setting written only when its value is non-empty. */
  function OptionalSetting(key: string, value: string): seq<Line>
  {
    if value == "" then [] else [Setting(key, value)]
  }

  function DefaultSection(name: string, user: string): Section
  {
    Section("DEFAULT", OptionalSetting("name", name) + OptionalSetting("user", user))
  }

  const LoggerSection: Section := Section("logger", [Spaced("level", "INFO")])

  /** The TLS settings of `keys` that are set, in that order. */
  function SslLinesOf(keys: seq<SslKey>, ssl: SslOptions): seq<Line>
  {
    if keys == [] then [] else OptionalSetting(keys[0].Name(), keys[0].Of(ssl)) + SslLinesOf(keys[1..], ssl)
  }

  function SslLines(ssl: SslOptions): seq<Line>
  {
    SslLinesOf(SslKeyOrder, ssl)
  }

  function MetadataLines(routerId: nat, servers: string, cluster: string, username: string): seq<Line>
  {
    [ Setting("router_id", DecimalString(routerId)),
      Setting("bootstrap_server_addresses", servers),
      Setting("user", username),
      Setting("metadata_cluster", cluster),
      Setting("ttl", DecimalString(MetadataTtl)) ]
  }

  function MetadataSection(routerId: nat, servers: string, cluster: string, username: string, ssl: SslOptions): Section
  {
    Section("metadata_cache:" + cluster, MetadataLines(routerId, servers, cluster, username) + SslLines(ssl))
  }

  /** The four routes, in the order the file lists them. */
  datatype Route = Rw | Ro | RwX | RoX
  {
    function Suffix(): string
    {
      match this
      case Rw => "rw"
      case Ro => "ro"
      case RwX => "x_rw"
      case RoX => "x_ro"
    }

    predicate Primary()
    {
      this == Rw || this == RwX
    }

    predicate XProtocol()
    {
      this == RwX || this == RoX
    }

    function Of(o: Options): Endpoint
    {
      match this
      case Rw => o.rw
      case Ro => o.ro
      case RwX => o.rwX
      case RoX => o.roX
    }
  }

  function RouteName(cluster: string, replicaset: string, route: Route): string
  {
    "routing:" + cluster + "_" + replicaset + "_" + route.Suffix()
  }

  function Destination(cluster: string, replicaset: string, route: Route): string
  {
    "metadata-cache://" + cluster + "/" + replicaset + "?role=" + (if route.Primary() then "PRIMARY" else "SECONDARY")
  }

  function TcpLines(bindAddress: string, e: Endpoint): seq<Line>
  {
    if e.port > 0 then
      [ Setting("bind_address", if bindAddress == "" then AnyAddress else bindAddress),
        Setting("bind_port", DecimalString(e.port)) ]
    else []
  }

  function SocketLines(socketsDir: string, e: Endpoint): seq<Line>
  {
    if e.socket != "" then [Setting("socket", socketsDir + "/" + e.socket)] else []
  }

  function RouteLines(cluster: string, replicaset: string, route: Route): seq<Line>
  {
    [ Setting("destinations", Destination(cluster, replicaset, route)),
      Setting("mode", if route.Primary() then "read-write" else "read-only"),
      Setting("protocol", if route.XProtocol() then "x" else "classic") ]
  }

  function RoutingSection(cluster: string, replicaset: string, route: Route, o: Options): Section
  {
    var e := route.Of(o);
    Section(RouteName(cluster, replicaset, route),
      TcpLines(o.bindAddress, e) + SocketLines(o.socketsDir, e) + RouteLines(cluster, replicaset, route))
  }

  /** The routing section of a route, when its endpoint is enabled. */
  function RoutingSections(cluster: string, replicaset: string, route: Route, o: Options): seq<Section>
  {
    if route.Of(o).Enabled() then [RoutingSection(cluster, replicaset, route, o)] else []
  }

  /** The four routes, in the order their sections are written. */
  const AllRoutes: seq<Route> := [Rw, Ro, RwX, RoX]

  /** The routing sections of the routes in `rs`, in order. */
  function RoutesFrom(cluster: string, replicaset: string, rs: seq<Route>, o: Options): seq<Section>
  {
    if rs == [] then []
    else RoutesFrom(cluster, replicaset, rs[..|rs| - 1], o) + RoutingSections(cluster, replicaset, rs[|rs| - 1], o)
  }

  /** The sections every configuration file starts with. */
  function LeadingSections(routerId: nat, name: string, user: string, servers: string,
                           cluster: string, username: string, ssl: SslOptions): seq<Section>
  {
    [DefaultSection(name, user), LoggerSection, MetadataSection(routerId, servers, cluster, username, ssl)]
  }

  /** The whole configuration file as sections. */
  function ConfigDocument(routerId: nat, name: string, user: string, servers: string,
                          cluster: string, replicaset: string, username: string, o: Options): seq<Section>
  {
    LeadingSections(routerId, name, user, servers, cluster, username, o.ssl)
    + RoutesFrom(cluster, replicaset, AllRoutes, o)
  }

  // ---------------------------------------------------------------------
  // Rendering laws
  // ---------------------------------------------------------------------

  lemma {:induction false} RenderLinesAppend(a: seq<Line>, b: seq<Line>)
    ensures RenderLines(a + b) == RenderLines(a) + RenderLines(b)
    decreases |a|
  {
    if a == [] {
      assert a + b == b;
    } else {
      assert (a + b)[0] == a[0] && (a + b)[1..] == a[1..] + b;
      RenderLinesAppend(a[1..], b);
    }
  }

  lemma {:induction false} RenderSectionsAppend(a: seq<Section>, b: seq<Section>)
    ensures RenderSections(a + b) == RenderSections(a) + RenderSections(b)
    decreases |a|
  {
    if a == [] {
      assert a + b == b;
    } else {
      assert (a + b)[0] == a[0] && (a + b)[1..] == a[1..] + b;
      RenderSectionsAppend(a[1..], b);
    }
  }

  lemma RenderTwoLines(a: Line, b: Line)
    ensures RenderLines([a, b]) == RenderLine(a) + RenderLine(b)
  {
    assert [a, b][1..] == [b];
    assert RenderLines([b]) == RenderLine(b);
  }

  lemma RenderThreeLines(a: Line, b: Line, c: Line)
    ensures RenderLines([a, b, c]) == RenderLine(a) + RenderLine(b) + RenderLine(c)
  {
    assert [a, b, c][1..] == [b, c];
    RenderTwoLines(b, c);
  }

  lemma RenderFiveLines(a: Line, b: Line, c: Line, d: Line, e: Line)
    ensures RenderLines([a, b, c, d, e]) == RenderLine(a) + RenderLine(b) + RenderLine(c) + RenderLine(d) + RenderLine(e)
  {
    RenderLinesAppend([a, b], [c, d, e]);
    assert [a, b] + [c, d, e] == [a, b, c, d, e];
    RenderTwoLines(a, b);
    RenderThreeLines(c, d, e);
    FiveParts(RenderLines([a, b, c, d, e]), RenderLine(a), RenderLine(b), RenderLine(c), RenderLine(d), RenderLine(e));
  }

  lemma FiveParts(t: string, p: string, q: string, x: string, y: string, z: string)
    requires t == (p + q) + (x + y + z)
    ensures t == p + q + x + y + z
  {
  }

  /** The text of an optional setting. */
  function OptionalText(key: string, value: string): string
  {
    if value == "" then "" else SettingLine(key, value)
  }

  lemma OptionalSettingText(key: string, value: string)
    ensures RenderLines(OptionalSetting(key, value)) == OptionalText(key, value)
  {
    if value != "" {
      assert RenderLines(OptionalSetting(key, value)) == RenderLine(Setting(key, value)) + RenderLines([]);
    }
  }

  /** The `[DEFAULT]` section holds a `name=` and a `user=` line only for non-empty values. */
  lemma DefaultSectionText(name: string, user: string)
    ensures RenderSection(DefaultSection(name, user)) ==
      Heading("DEFAULT") + OptionalText("name", name) + OptionalText("user", user) + "\n"
  {
    RenderLinesAppend(OptionalSetting("name", name), OptionalSetting("user", user));
    OptionalSettingText("name", name);
    OptionalSettingText("user", user);
  }

  /** The text of the TLS settings of `keys`, each only when set. */
  function SslTextOf(keys: seq<SslKey>, ssl: SslOptions): string
  {
    if keys == [] then "" else OptionalText(keys[0].Name(), keys[0].Of(ssl)) + SslTextOf(keys[1..], ssl)
  }

  function SslText(ssl: SslOptions): string
  {
    SslTextOf(SslKeyOrder, ssl)
  }

  lemma {:induction false} SslLinesOfText(keys: seq<SslKey>, ssl: SslOptions)
    ensures RenderLines(SslLinesOf(keys, ssl)) == SslTextOf(keys, ssl)
    decreases |keys|
  {
    if keys != [] {
      OptionalSettingText(keys[0].Name(), keys[0].Of(ssl));
      SslLinesOfText(keys[1..], ssl);
      RenderLinesAppend(OptionalSetting(keys[0].Name(), keys[0].Of(ssl)), SslLinesOf(keys[1..], ssl));
    }
  }

  lemma SslLinesText(ssl: SslOptions)
    ensures RenderLines(SslLines(ssl)) == SslText(ssl)
  {
    SslLinesOfText(SslKeyOrder, ssl);
  }

  /** Every TLS setting of `keys` that is set is one whole line of their text. */
  lemma {:induction false} SslLineInText(keys: seq<SslKey>, ssl: SslOptions, key: SslKey) returns (before: string, after: string)
    requires key in keys && key.Of(ssl) != ""
    ensures SslTextOf(keys, ssl) == before + SettingLine(key.Name(), key.Of(ssl)) + after
    decreases |keys|
  {
    var head := OptionalText(keys[0].Name(), keys[0].Of(ssl));
    var rest := SslTextOf(keys[1..], ssl);
    var line := SettingLine(key.Name(), key.Of(ssl));
    assert SslTextOf(keys, ssl) == head + rest;
    if keys[0] == key {
      assert head == line;
      before, after := "", rest;
      LineInFront(SslTextOf(keys, ssl), head, rest);
    } else {
      assert key in keys[1..];
      var b, a := SslLineInText(keys[1..], ssl, key);
      LineInTail(SslTextOf(keys, ssl), head, rest, b, line, a);
      before, after := head + b, a;
    }
  }

  lemma LineInFront(t: string, line: string, rest: string)
    requires t == line + rest
    ensures t == "" + line + rest
  {
  }

  lemma LineInTail(t: string, head: string, rest: string, b: string, line: string, a: string)
    requires t == head + rest && rest == b + line + a
    ensures t == (head + b) + line + a
  {
  }

  /** The fixed settings of the metadata-cache section, ttl last. */
  function MetadataText(routerId: nat, servers: string, cluster: string, username: string): string
  {
    SettingLine("router_id", DecimalString(routerId))
    + SettingLine("bootstrap_server_addresses", servers)
    + SettingLine("user", username)
    + SettingLine("metadata_cluster", cluster)
    + SettingLine("ttl", "300")
  }

  lemma MetadataLinesText(routerId: nat, servers: string, cluster: string, username: string)
    ensures RenderLines(MetadataLines(routerId, servers, cluster, username)) == MetadataText(routerId, servers, cluster, username)
  {
    assert DecimalString(MetadataTtl) == "300";
    var l1 := Setting("router_id", DecimalString(routerId));
    var l2 := Setting("bootstrap_server_addresses", servers);
    var l3 := Setting("user", username);
    var l4 := Setting("metadata_cluster", cluster);
    var l5 := Setting("ttl", "300");
    assert MetadataLines(routerId, servers, cluster, username) == [l1, l2, l3, l4, l5];
    RenderFiveLines(l1, l2, l3, l4, l5);
  }

  /**
   * The `[metadata_cache:<cluster>]` section: router id, bootstrap servers,
   * user, cluster and a ttl of 300, then the TLS settings that were given.
   */
  lemma MetadataSectionText(routerId: nat, servers: string, cluster: string, username: string, ssl: SslOptions)
    ensures RenderSection(MetadataSection(routerId, servers, cluster, username, ssl)) ==
      Heading("metadata_cache:" + cluster) + MetadataText(routerId, servers, cluster, username) + SslText(ssl) + "\n"
  {
    MetadataLinesText(routerId, servers, cluster, username);
    SslLinesText(ssl);
    TwoPartSection("metadata_cache:" + cluster, MetadataLines(routerId, servers, cluster, username), SslLines(ssl));
  }

  /** The bind address (0.0.0.0 when none was given) and port, for a TCP endpoint. */
  function TcpText(bindAddress: string, e: Endpoint): string
  {
    if e.port > 0 then
      SettingLine("bind_address", if bindAddress == "" then "0.0.0.0" else bindAddress)
      + SettingLine("bind_port", DecimalString(e.port))
    else ""
  }

  /** The socket path under the sockets directory, for an endpoint with a socket. */
  function SocketText(socketsDir: string, e: Endpoint): string
  {
    if e.socket != "" then SettingLine("socket", socketsDir + "/" + e.socket) else ""
  }

  /** Destination for the PRIMARY or SECONDARY role, mode and protocol. */
  function RouteText(cluster: string, replicaset: string, route: Route): string
  {
    SettingLine("destinations", "metadata-cache://" + cluster + "/" + replicaset + "?role="
      + (if route.Primary() then "PRIMARY" else "SECONDARY"))
    + SettingLine("mode", if route.Primary() then "read-write" else "read-only")
    + SettingLine("protocol", if route.XProtocol() then "x" else "classic")
  }

  /**
   * A `[routing:<cluster>_<replicaset>_<suffix>]` section: the TCP settings
   * when the endpoint listens on a port, the socket when it has one, then
   * destination, mode and protocol.
   */
  lemma RoutingSectionText(cluster: string, replicaset: string, route: Route, o: Options)
    ensures RenderSection(RoutingSection(cluster, replicaset, route, o)) ==
      Heading("routing:" + cluster + "_" + replicaset + "_" + route.Suffix())
      + TcpText(o.bindAddress, route.Of(o)) + SocketText(o.socketsDir, route.Of(o))
      + RouteText(cluster, replicaset, route) + "\n"
  {
    var e := route.Of(o);
    TcpLinesText(o.bindAddress, e);
    SocketLinesText(o.socketsDir, e);
    RouteLinesText(cluster, replicaset, route);
    ThreePartSection(RouteName(cluster, replicaset, route), TcpLines(o.bindAddress, e),
      SocketLines(o.socketsDir, e), RouteLines(cluster, replicaset, route));
  }

  lemma TwoPartSection(name: string, a: seq<Line>, b: seq<Line>)
    ensures RenderSection(Section(name, a + b)) == Heading(name) + RenderLines(a) + RenderLines(b) + "\n"
  {
    RenderLinesAppend(a, b);
  }

  lemma ThreePartSection(name: string, a: seq<Line>, b: seq<Line>, c: seq<Line>)
    ensures RenderSection(Section(name, a + b + c)) ==
      Heading(name) + RenderLines(a) + RenderLines(b) + RenderLines(c) + "\n"
  {
    RenderLinesAppend(a, b);
    RenderLinesAppend(a + b, c);
  }

  lemma TcpLinesText(bindAddress: string, e: Endpoint)
    ensures RenderLines(TcpLines(bindAddress, e)) == TcpText(bindAddress, e)
  {
    if e.port > 0 {
      var tcp := TcpLines(bindAddress, e);
      RenderTwoLines(tcp[0], tcp[1]);
    }
  }

  lemma SocketLinesText(socketsDir: string, e: Endpoint)
    ensures RenderLines(SocketLines(socketsDir, e)) == SocketText(socketsDir, e)
  {
    if e.socket != "" {
      var sock := SocketLines(socketsDir, e);
      assert RenderLines(sock) == RenderLine(sock[0]) + RenderLines([]);
    }
  }

  lemma RouteLinesText(cluster: string, replicaset: string, route: Route)
    ensures RenderLines(RouteLines(cluster, replicaset, route)) == RouteText(cluster, replicaset, route)
  {
    var tail := RouteLines(cluster, replicaset, route);
    RenderThreeLines(tail[0], tail[1], tail[2]);
  }

  // ---------------------------------------------------------------------
  // create_config
  // ---------------------------------------------------------------------

  /**
   * `create_config`: writes the header, the `[DEFAULT]`, `[logger]` and
   * metadata-cache sections, then one routing section per enabled route,
   * appending each to the text as it goes.
   */
  method CreateConfig(routerId: nat, name: string, user: string, servers: string,
                      cluster: string, replicaset: string, username: string, o: Options)
    returns (text: string)
    ensures text == Render(ConfigDocument(routerId, name, user, servers, cluster, replicaset, username, o))
  {
    text := WriteLeadingSections(routerId, name, user, servers, cluster, username, o.ssl);
    ghost var written := LeadingSections(routerId, name, user, servers, cluster, username, o.ssl);
    ghost var fixed := written;
    var routes := AllRoutes;
    for i := 0 to 4
      invariant text == Header + RenderSections(written)
      invariant written == fixed + RoutesFrom(cluster, replicaset, routes[..i], o)
    {
      RoutesFromStep(cluster, replicaset, routes, i, o);
      if routes[i].Of(o).Enabled() {
        var section := RoutingSection(cluster, replicaset, routes[i], o);
        AppendSection(text, written, section);
        text := text + RenderSection(section);
        written := written + [section];
      }
    }
    assert routes[..4] == routes;
  }

  /** The header, then the `[DEFAULT]`, `[logger]` and metadata-cache sections, one after the other. */
  method WriteLeadingSections(routerId: nat, name: string, user: string, servers: string,
                              cluster: string, username: string, ssl: SslOptions)
    returns (text: string)
    ensures text == Header + RenderSections(LeadingSections(routerId, name, user, servers, cluster, username, ssl))
  {
    text := Header;
    ghost var written: seq<Section> := [];
    var section := DefaultSection(name, user);
    AppendSection(text, written, section);
    text, written := text + RenderSection(section), written + [section];
    AppendSection(text, written, LoggerSection);
    text, written := text + RenderSection(LoggerSection), written + [LoggerSection];
    section := MetadataSection(routerId, servers, cluster, username, ssl);
    AppendSection(text, written, section);
    text, written := text + RenderSection(section), written + [section];
    assert written == [DefaultSection(name, user), LoggerSection, section];
  }

  /** Appending a section to the text appends it to the document. */
  lemma AppendSection(text: string, written: seq<Section>, section: Section)
    requires text == Header + RenderSections(written)
    ensures text + RenderSection(section) == Header + RenderSections(written + [section])
  {
    RenderSectionsAppend(written, [section]);
    RenderOneSection(section);
  }

  lemma RenderOneSection(s: Section)
    ensures RenderSections([s]) == RenderSection(s)
  {
    assert RenderSections([s]) == RenderSection(s) + RenderSections([]);
  }

  lemma RoutesFromStep(cluster: string, replicaset: string, routes: seq<Route>, i: nat, o: Options)
    requires i < |routes|
    ensures RoutesFrom(cluster, replicaset, routes[..i + 1], o) ==
      RoutesFrom(cluster, replicaset, routes[..i], o) + RoutingSections(cluster, replicaset, routes[i], o)
  {
    assert routes[..i + 1][..i] == routes[..i];
  }

  /** The name of a routing section tells its route apart from the other three. */
  lemma RouteNamesDistinct(cluster: string, replicaset: string, r1: Route, r2: Route)
    ensures RouteName(cluster, replicaset, r1) == RouteName(cluster, replicaset, r2) <==> r1 == r2
  {
    var n1 := RouteName(cluster, replicaset, r1);
    var n2 := RouteName(cluster, replicaset, r2);
    var prefix := "routing:" + cluster + "_" + replicaset + "_";
    assert n1 == prefix + r1.Suffix() && n2 == prefix + r2.Suffix();
    if |r1.Suffix()| == |r2.Suffix()| {
      assert n1[|n1| - 1] == r1.Suffix()[|r1.Suffix()| - 1];
      assert n2[|n2| - 1] == r2.Suffix()[|r2.Suffix()| - 1];
    }
  }

  /** `s` is the section of route `r`, and that route is enabled. */
  predicate SectionOfEnabled(cluster: string, replicaset: string, r: Route, o: Options, s: Section)
  {
    r.Of(o).Enabled() && s == RoutingSection(cluster, replicaset, r, o)
  }

  /** The sections `RoutesFrom` yields are those of the enabled routes among `rs`. */
  lemma {:induction false} RoutesFromMembers(cluster: string, replicaset: string, rs: seq<Route>, o: Options, s: Section)
    ensures s in RoutesFrom(cluster, replicaset, rs, o) <==>
      exists r :: r in rs && SectionOfEnabled(cluster, replicaset, r, o, s)
    decreases |rs|
  {
    if rs != [] {
      var init := rs[..|rs| - 1];
      var last := rs[|rs| - 1];
      RoutesFromMembers(cluster, replicaset, init, o, s);
      assert RoutesFrom(cluster, replicaset, rs, o) ==
        RoutesFrom(cluster, replicaset, init, o) + RoutingSections(cluster, replicaset, last, o);
      assert s in RoutingSections(cluster, replicaset, last, o) <==> SectionOfEnabled(cluster, replicaset, last, o, s);
      LastOrInit(rs, init, last, r => SectionOfEnabled(cluster, replicaset, r, o, s));
    }
  }

  /** Something holds for a member of `init + [last]` exactly when it holds for `last` or a member of `init`. */
  lemma LastOrInit(rs: seq<Route>, init: seq<Route>, last: Route, p: Route -> bool)
    requires rs == init + [last]
    ensures (exists r :: r in rs && p(r)) <==> p(last) || exists r :: r in init && p(r)
  {
    if exists r :: r in rs && p(r) {
      var r :| r in rs && p(r);
      if r != last {
        assert r in init;
      }
    }
    assert last in rs;
  }

  /**
   * The file has a `[routing:<cluster>_<replicaset>_<suffix>]` section
   * exactly when that route's endpoint listens on a port or a socket.
   */
  lemma RoutingSectionPresent(routerId: nat, name: string, user: string, servers: string,
      cluster: string, replicaset: string, username: string, o: Options, route: Route)
    ensures var doc := ConfigDocument(routerId, name, user, servers, cluster, replicaset, username, o);
      (exists s :: s in doc && s.name == RouteName(cluster, replicaset, route)) <==> route.Of(o).Enabled()
  {
    var doc := ConfigDocument(routerId, name, user, servers, cluster, replicaset, username, o);
    var target := RouteName(cluster, replicaset, route);
    var fixed := LeadingSections(routerId, name, user, servers, cluster, username, o.ssl);
    var routing := RoutesFrom(cluster, replicaset, AllRoutes, o);
    assert doc == fixed + routing;
    if route.Of(o).Enabled() {
      var s := RoutingSection(cluster, replicaset, route, o);
      assert route in AllRoutes;
      RoutesFromMembers(cluster, replicaset, AllRoutes, o, s);
      assert s in doc && s.name == target;
    } else {
      forall s | s in doc
        ensures s.name != target
      {
        if s in fixed {
          LeadingSectionNames(routerId, name, user, servers, cluster, username, o.ssl, s);
          assert target[0] == 'r';
        } else {
          OtherRouteNames(cluster, replicaset, o, s, route);
        }
      }
    }
  }

  /** No leading section's name starts like a routing section's. */
  lemma LeadingSectionNames(routerId: nat, name: string, user: string, servers: string,
                            cluster: string, username: string, ssl: SslOptions, s: Section)
    requires s in LeadingSections(routerId, name, user, servers, cluster, username, ssl)
    ensures |s.name| > 0 && s.name[0] != 'r'
  {
  }

  /** A routing section in the file names a route other than a disabled one. */
  lemma OtherRouteNames(cluster: string, replicaset: string, o: Options, s: Section, route: Route)
    requires s in RoutesFrom(cluster, replicaset, AllRoutes, o)
    requires !route.Of(o).Enabled()
    ensures s.name != RouteName(cluster, replicaset, route)
  {
    RoutesFromMembers(cluster, replicaset, AllRoutes, o, s);
    var r: Route :| SectionOfEnabled(cluster, replicaset, r, o, s);
    RouteNamesDistinct(cluster, replicaset, r, route);
  }
}
