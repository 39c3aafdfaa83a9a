/**
 * What the generated configuration file says about the options it was
 * generated from: which routing sections it has, how each endpoint is
 * spelled and that the TLS settings reach the file unchanged.
 */
module ConfigProperties {
  import opened Wrappers
  import opened Text
  import opened ConfigOptions
  import opened ConfigWriter

  /**
   * In a multi-master cluster the file has no read-only routing sections;
   * the `_rw` and `_x_rw` sections are there unless `skip-tcp` is given
   * without `use-sockets`.
   */
  lemma MultiMasterSections(user: UserOptions, routerId: nat, name: string, owner: string, servers: string,
                            cluster: string, replicaset: string, username: string, route: Route)
    requires FillOptions(true, user).Ok?
    ensures var doc := ConfigDocument(routerId, name, owner, servers, cluster, replicaset, username, FillOptions(true, user).value);
      (exists s :: s in doc && s.name == RouteName(cluster, replicaset, route)) <==>
        route.Primary() && ("skip-tcp" !in user || "use-sockets" in user)
  {
    var o := FillOptions(true, user).value;
    EndpointSwitches(true, user);
    RoutingSectionPresent(routerId, name, owner, servers, cluster, replicaset, username, o, route);
  }

  /** The socket file of each route. */
  function SocketFile(route: Route): string
  {
    match route
    case Rw => "mysql.sock"
    case Ro => "mysqlro.sock"
    case RwX => "mysqlx.sock"
    case RoX => "mysqlxro.sock"
  }

  /** The port each route listens on when no base port is given. */
  function DefaultPort(route: Route): nat
  {
    match route
    case Rw => DefaultRwPort
    case Ro => DefaultRoPort
    case RwX => DefaultRwXPort
    case RoX => DefaultRoXPort
  }

  /** Under `skip-tcp` and `use-sockets` an enabled route listens only on its own socket file. */
  lemma SocketOnlyEndpoint(multiMaster: bool, user: UserOptions, route: Route)
    requires FillOptions(multiMaster, user).Ok?
    requires "skip-tcp" in user && "use-sockets" in user
    requires !multiMaster || route.Primary()
    ensures var o := FillOptions(multiMaster, user).value;
      route.Of(o) == Endpoint(0, SocketFile(route)) && o.socketsDir == Lookup(user, "socketsdir")
  {
  }

  /**
   * With `skip-tcp` and `use-sockets`, a routing section has no
   * `bind_address`/`bind_port` lines and its socket lies in the sockets
   * directory under the route's own file name.
   */
  lemma SocketOnlySection(multiMaster: bool, user: UserOptions, cluster: string, replicaset: string, route: Route)
    requires FillOptions(multiMaster, user).Ok?
    requires "skip-tcp" in user && "use-sockets" in user
    requires !multiMaster || route.Primary()
    ensures var o := FillOptions(multiMaster, user).value;
      RenderSection(RoutingSection(cluster, replicaset, route, o)) ==
        Heading(RouteName(cluster, replicaset, route))
        + SettingLine("socket", Lookup(user, "socketsdir") + "/" + SocketFile(route))
        + RouteText(cluster, replicaset, route) + "\n"
  {
    var o := FillOptions(multiMaster, user).value;
    SocketOnlyEndpoint(multiMaster, user, route);
    RoutingSectionText(cluster, replicaset, route, o);
    var heading := Heading(RouteName(cluster, replicaset, route));
    assert heading + TcpText(o.bindAddress, route.Of(o)) == heading;
  }

  /** Without `base-port`, `bind-address` and `skip-tcp`, an enabled route listens on its default port on every address. */
  lemma DefaultTcpEndpoint(multiMaster: bool, user: UserOptions, route: Route)
    requires FillOptions(multiMaster, user).Ok?
    requires "base-port" !in user && "bind-address" !in user && "skip-tcp" !in user
    requires !multiMaster || route.Primary()
    ensures var o := FillOptions(multiMaster, user).value;
      && route.Of(o) == Endpoint(DefaultPort(route), if "use-sockets" in user then SocketFile(route) else "")
      && o.bindAddress == "" && o.socketsDir == Lookup(user, "socketsdir")
  {
  }

  /**
   * Without `base-port`, `bind-address` and `skip-tcp`, a routing section
   * binds 0.0.0.0 on the route's default port (6446, 6447, 64460, 64470),
   * with a socket line only under `use-sockets`.
   */
  lemma DefaultTcpSection(multiMaster: bool, user: UserOptions, cluster: string, replicaset: string, route: Route)
    requires FillOptions(multiMaster, user).Ok?
    requires "base-port" !in user && "bind-address" !in user && "skip-tcp" !in user
    requires !multiMaster || route.Primary()
    ensures var o := FillOptions(multiMaster, user).value;
      RenderSection(RoutingSection(cluster, replicaset, route, o)) ==
        Heading(RouteName(cluster, replicaset, route))
        + (SettingLine("bind_address", "0.0.0.0") + SettingLine("bind_port", DecimalString(DefaultPort(route))))
        + (if "use-sockets" in user then SettingLine("socket", Lookup(user, "socketsdir") + "/" + SocketFile(route)) else "")
        + RouteText(cluster, replicaset, route) + "\n"
  {
    var o := FillOptions(multiMaster, user).value;
    DefaultTcpEndpoint(multiMaster, user, route);
    RoutingSectionText(cluster, replicaset, route, o);
  }

  /** The default ports print as the cases expect them. */
  lemma DefaultPortsPrinted()
    ensures DecimalString(DefaultPort(Rw)) == "6446" && DecimalString(DefaultPort(Ro)) == "6447"
    ensures DecimalString(DefaultPort(RwX)) == "64460" && DecimalString(DefaultPort(RoX)) == "64470"
  {
    Prints6446();
    Prints6447();
    Prints64460();
    Prints64470();
  }

  /** The file is the header, the three leading sections and then the routing sections. */
  lemma FileLayout(routerId: nat, name: string, owner: string, servers: string,
                   cluster: string, replicaset: string, username: string, o: Options)
    ensures Render(ConfigDocument(routerId, name, owner, servers, cluster, replicaset, username, o)) ==
      Header + RenderSection(DefaultSection(name, owner)) + RenderSection(LoggerSection)
      + RenderSection(MetadataSection(routerId, servers, cluster, username, o.ssl))
      + RenderSections(RoutesFrom(cluster, replicaset, AllRoutes, o))
  {
    ThreeSectionsFirst(Header, DefaultSection(name, owner), LoggerSection,
      MetadataSection(routerId, servers, cluster, username, o.ssl), RoutesFrom(cluster, replicaset, AllRoutes, o));
  }

  lemma ThreeSectionsFirst(head: string, a: Section, b: Section, c: Section, rest: seq<Section>)
    ensures head + RenderSections([a, b, c] + rest) ==
      head + RenderSection(a) + RenderSection(b) + RenderSection(c) + RenderSections(rest)
  {
    RenderSectionsAppend([a, b, c], rest);
    RenderThreeSections(a, b, c);
    JoinAfterHead(head, RenderSections([a, b, c]), RenderSection(a), RenderSection(b), RenderSection(c),
      RenderSections(rest));
  }

  lemma RenderThreeSections(a: Section, b: Section, c: Section)
    ensures RenderSections([a, b, c]) == RenderSection(a) + RenderSection(b) + RenderSection(c)
  {
    assert [a, b, c][1..] == [b, c] && [b, c][1..] == [c];
    RenderOneSection(c);
  }

  lemma JoinAfterHead(head: string, three: string, x: string, y: string, z: string, rest: string)
    requires three == x + y + z
    ensures head + (three + rest) == head + x + y + z + rest
  {
  }

  lemma MiddleRegroup(p: string, h: string, b: string, s: string, a: string, r: string)
    ensures p + (h + (b + (s + "\n") + a) + "\n") + r == (p + h + b) + s + ("\n" + a + "\n" + r)
  {
  }

  /**
   * A TLS setting given at bootstrap is written to the file as
   * `<key>=<value>`, exactly as given (the mode keeps its letter case).
   */
  lemma SslSettingWritten(user: UserOptions, key: SslKey, routerId: nat, name: string, owner: string,
                          servers: string, cluster: string, replicaset: string, username: string)
    requires FillOptions(false, user).Ok?
    requires key.Name() in user && user[key.Name()] != ""
    ensures Contains(Render(ConfigDocument(routerId, name, owner, servers, cluster, replicaset, username,
      FillOptions(false, user).value)), key.Name() + "=" + user[key.Name()])
  {
    var o := FillOptions(false, user).value;
    OptionsEchoed(false, user);
    assert key in SslKeyOrder;
    var before, after := SslLineInText(SslKeyOrder, o.ssl, key);
    var setting := key.Name() + "=" + user[key.Name()];
    FileLayout(routerId, name, owner, servers, cluster, replicaset, username, o);
    MetadataSectionText(routerId, servers, cluster, username, o.ssl);
    var p := Header + RenderSection(DefaultSection(name, owner)) + RenderSection(LoggerSection);
    var h := Heading("metadata_cache:" + cluster) + MetadataText(routerId, servers, cluster, username);
    var r := RenderSections(RoutesFrom(cluster, replicaset, AllRoutes, o));
    MiddleRegroup(p, h, before, setting, after, r);
    ContainsMiddle(p + h + before, setting, "\n" + after + "\n" + r);
  }

  // Printed forms of the numbers the examples use, each checked on its own.
  lemma Prints6446() ensures DecimalString(6446) == "6446" {}
  lemma Prints6447() ensures DecimalString(6447) == "6447" {}
  lemma Prints64460() ensures DecimalString(64460) == "64460" {}
  lemma Prints64470() ensures DecimalString(64470) == "64470" {}
}
