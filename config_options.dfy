/**
 * `ConfigGenerator::fill_options`: the bootstrap command-line options (a
 * map from option name to its text) become the `Options` record the
 * configuration writer consumes.
 */
module ConfigOptions {
  import opened Wrappers
  import opened Text

  type UserOptions = map<string, string>

  const DefaultRwPort: nat := 6446
  const DefaultRoPort: nat := 6447
  const DefaultRwXPort: nat := 64460
  const DefaultRoXPort: nat := 64470
  /** The largest base port whose three successors are still TCP ports. */
  const MaxBasePort: nat := 65532
  const MaxTcpPort: nat := 65535

  /** One routing endpoint: port 0 means no TCP listener, "" no socket. */
  datatype Endpoint = Endpoint(port: nat, socket: string)
  {
    /** A routing section is generated for the endpoint (`operator bool`). */
    predicate Enabled()
    {
      port > 0 || socket != ""
    }
  }

  datatype SslOptions = SslOptions(
    mode: string, cipher: string, tlsVersion: string,
    ca: string, capath: string, crl: string, crlpath: string)

  /** The TLS options, each with its option name and its place in the record. */
  datatype SslKey = Mode | Cipher | TlsVersion | Ca | CaPath | Crl | CrlPath
  {
    function Name(): string
    {
      match this
      case Mode => "ssl_mode"
      case Cipher => "ssl_cipher"
      case TlsVersion => "tls_version"
      case Ca => "ssl_ca"
      case CaPath => "ssl_capath"
      case Crl => "ssl_crl"
      case CrlPath => "ssl_crlpath"
    }

    function Of(ssl: SslOptions): string
    {
      match this
      case Mode => ssl.mode
      case Cipher => ssl.cipher
      case TlsVersion => ssl.tlsVersion
      case Ca => ssl.ca
      case CaPath => ssl.capath
      case Crl => ssl.crl
      case CrlPath => ssl.crlpath
    }
  }

  /** The order in which the TLS options are written. */
  const SslKeyOrder: seq<SslKey> := [Mode, Cipher, TlsVersion, Ca, CaPath, Crl, CrlPath]

  datatype Options = Options(
    multiMaster: bool,
    bindAddress: string,
    rw: Endpoint, ro: Endpoint, rwX: Endpoint, roX: Endpoint,
    socketsDir: string,
    overrideLogdir: string, overrideRundir: string, overrideDatadir: string,
    ssl: SslOptions)

  datatype OptionError = InvalidBasePort(value: string) | InvalidBindAddress(value: string)

  /** The `std::runtime_error` text. */
  function Message(e: OptionError): string
  {
    match e
    case InvalidBasePort(v) => "Invalid base-port number " + v
    case InvalidBindAddress(v) => "Invalid bind-address value " + v
  }

  /** The value of an option, "" when it was not given. */
  function Lookup(user: UserOptions, key: string): string
  {
    if key in user then user[key] else ""
  }

  // ---------------------------------------------------------------------
  // Validation
  // ---------------------------------------------------------------------

  predicate ValidBasePort(s: string)
  {
    var n := ParseInteger(s);
    n.Some? && 0 < n.value <= MaxBasePort
  }

  predicate IsOctet(p: string)
  {
    1 <= |p| <= 3 && AllDigits(p) && DigitsValue(p) <= 255
  }

  /** A dotted-quad IPv4 address: four decimal octets separated by dots. */
  predicate IsIPv4(s: string)
  {
    var parts := Split(s, '.');
    |parts| == 4 && forall i :: 0 <= i < 4 ==> IsOctet(parts[i])
  }

  function DottedQuad(a: nat, b: nat, c: nat, d: nat): string
    requires a <= 255 && b <= 255 && c <= 255 && d <= 255
  {
    Join([DecimalString(a), DecimalString(b), DecimalString(c), DecimalString(d)], '.')
  }

  /** Every address printed as four octets is accepted as a bind address. */
  lemma DottedQuadIsIPv4(a: nat, b: nat, c: nat, d: nat)
    requires a <= 255 && b <= 255 && c <= 255 && d <= 255
    ensures IsIPv4(DottedQuad(a, b, c, d))
  {
    var parts := [DecimalString(a), DecimalString(b), DecimalString(c), DecimalString(d)];
    forall i | 0 <= i < 4 ensures '.' !in parts[i] && IsOctet(parts[i]) {
      var n := [a, b, c, d][i];
      assert parts[i] == DecimalString(n);
      DecimalStringShort(n);
      DigitsOfDecimal(n);
    }
    SplitJoin(parts, '.');
  }

  // ---------------------------------------------------------------------
  // fill_options
  // ---------------------------------------------------------------------

  function EndpointOf(tcp: bool, port: nat, sockets: bool, socketName: string): Endpoint
  {
    Endpoint(if tcp then port else 0, if sockets then socketName else "")
  }

  /**
   * `fill_options(multi_master, user_options)`. A given `base-port` B puts
   * the four endpoints on B, B+1, B+2 and B+3; `skip-tcp` drops the ports,
   * `use-sockets` adds the sockets, and a multi-master cluster has no
   * read-only endpoints.
   */
  function FillOptions(multiMaster: bool, user: UserOptions): Result<Options, OptionError>
  {
    if "base-port" in user && !ValidBasePort(user["base-port"]) then
      Err(InvalidBasePort(user["base-port"]))
    else if "bind-address" in user && !IsIPv4(user["bind-address"]) then
      Err(InvalidBindAddress(user["bind-address"]))
    else
      var tcp := "skip-tcp" !in user;
      var sockets := "use-sockets" in user;
      var ports: seq<nat> :=
        if "base-port" in user then
          var b := ParseInteger(user["base-port"]).value as nat;
          [b, b + 1, b + 2, b + 3]
        else [DefaultRwPort, DefaultRoPort, DefaultRwXPort, DefaultRoXPort];
      var off := Endpoint(0, "");
      Ok(Options(
        multiMaster,
        Lookup(user, "bind-address"),
        EndpointOf(tcp, ports[0], sockets, "mysql.sock"),
        if multiMaster then off else EndpointOf(tcp, ports[1], sockets, "mysqlro.sock"),
        EndpointOf(tcp, ports[2], sockets, "mysqlx.sock"),
        if multiMaster then off else EndpointOf(tcp, ports[3], sockets, "mysqlxro.sock"),
        Lookup(user, "socketsdir"),
        Lookup(user, "logdir"), Lookup(user, "rundir"), Lookup(user, "datadir"),
        SslOptions(
          Lookup(user, "ssl_mode"), Lookup(user, "ssl_cipher"), Lookup(user, "tls_version"),
          Lookup(user, "ssl_ca"), Lookup(user, "ssl_capath"), Lookup(user, "ssl_crl"),
          Lookup(user, "ssl_crlpath"))))
  }

  /** The four endpoints of an options record. */
  function Endpoints(o: Options): seq<Endpoint>
  {
    [o.rw, o.ro, o.rwX, o.roX]
  }

  /**
   * `fill_options` fails exactly on a malformed or out-of-range base port or
   * a bind address that is not an IPv4 address, and names the offending
   * value.
   */
  lemma FillOptionsFails(multiMaster: bool, user: UserOptions)
    ensures FillOptions(multiMaster, user).Err? <==>
      ("base-port" in user && !ValidBasePort(user["base-port"])) ||
      ("bind-address" in user && !IsIPv4(user["bind-address"]))
    ensures FillOptions(multiMaster, user).Err? ==>
      var e := FillOptions(multiMaster, user).error;
      (e.InvalidBasePort? && e.value == user["base-port"]) ||
      (e.InvalidBindAddress? && e.value == user["bind-address"])
  {
  }

  /**
   * Every port `fill_options` hands out is a TCP port (at most 65535), and
   * the endpoints that listen on TCP use pairwise different ports.
   */
  lemma PortsInRange(multiMaster: bool, user: UserOptions)
    requires FillOptions(multiMaster, user).Ok?
    ensures forall e :: e in Endpoints(FillOptions(multiMaster, user).value) ==> e.port <= MaxTcpPort
    ensures var es := Endpoints(FillOptions(multiMaster, user).value);
      forall i, j :: 0 <= i < j < 4 && es[i].port > 0 && es[j].port > 0 ==> es[i].port != es[j].port
  {
  }

  /**
   * The switches: every endpoint listens on TCP exactly when `skip-tcp` is
   * absent and has a socket exactly when `use-sockets` is present; in a
   * multi-master cluster the read-only endpoints are disabled.
   */
  lemma EndpointSwitches(multiMaster: bool, user: UserOptions)
    requires FillOptions(multiMaster, user).Ok?
    ensures var o := FillOptions(multiMaster, user).value;
      && (o.rw.port > 0 <==> "skip-tcp" !in user)
      && (o.rwX.port > 0 <==> "skip-tcp" !in user)
      && (o.rw.socket != "" <==> "use-sockets" in user)
      && (o.rwX.socket != "" <==> "use-sockets" in user)
      && (o.rw.Enabled() <==> "skip-tcp" !in user || "use-sockets" in user)
      && (o.ro.Enabled() <==> !multiMaster && ("skip-tcp" !in user || "use-sockets" in user))
      && (o.roX.Enabled() <==> !multiMaster && ("skip-tcp" !in user || "use-sockets" in user))
      && (!multiMaster ==> (o.ro.port > 0 <==> "skip-tcp" !in user) && (o.ro.socket != "" <==> "use-sockets" in user))
  {
  }

  /**
   * The bind address, override directories and TLS settings are the user's
   * text unchanged (the TLS mode keeps its letter case).
   */
  lemma OptionsEchoed(multiMaster: bool, user: UserOptions)
    requires FillOptions(multiMaster, user).Ok?
    ensures var o := FillOptions(multiMaster, user).value;
      && o.multiMaster == multiMaster
      && o.bindAddress == Lookup(user, "bind-address")
      && (o.bindAddress == "" || IsIPv4(o.bindAddress))
      && o.socketsDir == Lookup(user, "socketsdir")
      && o.overrideLogdir == Lookup(user, "logdir")
      && o.overrideRundir == Lookup(user, "rundir")
      && o.overrideDatadir == Lookup(user, "datadir")
      && forall key: SslKey :: key.Of(o.ssl) == Lookup(user, key.Name())
  {
  }

  /** A base port B given in decimal puts the endpoints on B .. B+3. */
  lemma BasePortAssignsPorts(multiMaster: bool, user: UserOptions, b: nat)
    requires 1 <= b <= MaxBasePort
    requires "base-port" in user && user["base-port"] == DecimalString(b)
    requires "skip-tcp" !in user
    requires "bind-address" in user ==> IsIPv4(user["bind-address"])
    ensures FillOptions(multiMaster, user).Ok?
    ensures var o := FillOptions(multiMaster, user).value;
      o.rw.port == b && o.rwX.port == b + 2 &&
      (!multiMaster ==> o.ro.port == b + 1 && o.roX.port == b + 3)
  {
    ParseIntegerOfDecimal(b);
  }

  /** Base ports 0 and above 65532, and every negative number, are refused. */
  lemma BasePortOutOfRange(user: UserOptions, b: nat)
    requires "base-port" in user
    requires user["base-port"] == DecimalString(b) || user["base-port"] == "-" + DecimalString(b)
    requires user["base-port"] == DecimalString(b) ==> b == 0 || b > MaxBasePort
    ensures forall mm :: FillOptions(mm, user) == Err(InvalidBasePort(user["base-port"]))
  {
    ParseIntegerOfDecimal(b);
  }

  /** Without options: ports 6446, 6447, 64460, 64470, no sockets, no bind address. */
  lemma DefaultOptions()
    ensures FillOptions(false, map[]) == Ok(Options(
      false, "",
      Endpoint(6446, ""), Endpoint(6447, ""), Endpoint(64460, ""), Endpoint(64470, ""),
      "", "", "", "", SslOptions("", "", "", "", "", "", "")))
  {
  }

  /** A number in decimal is a valid base port exactly when it lies in 1 .. 65532; a negative one never is. */
  lemma ValidBasePortOfDecimal(n: nat)
    ensures ValidBasePort(DecimalString(n)) <==> 1 <= n <= MaxBasePort
    ensures !ValidBasePort("-" + DecimalString(n))
  {
    ParseIntegerOfDecimal(n);
  }

  lemma BasePortAccepted()
    ensures ValidBasePort("1") && ValidBasePort("3306") && ValidBasePort("65532")
  {
    ValidBasePortOfDecimal(1);
    Prints3306();
    ValidBasePortOfDecimal(3306);
    Prints65532();
    ValidBasePortOfDecimal(65532);
  }

  lemma BasePortRefusedSmall()
    ensures !ValidBasePort("0") && !ValidBasePort("-1")
  {
    ValidBasePortOfDecimal(0);
    ValidBasePortOfDecimal(1);
  }

  lemma BasePortRefusedLarge()
    ensures !ValidBasePort("65533") && !ValidBasePort("65536") && !ValidBasePort("999999")
  {
    Prints65533();
    ValidBasePortOfDecimal(65533);
    Prints65536();
    ValidBasePortOfDecimal(65536);
    Prints999999();
    ValidBasePortOfDecimal(999999);
  }

  /** The empty string and trailing garbage are not numbers at all. */
  lemma BasePortRefusedText()
    ensures !ValidBasePort("") && !ValidBasePort("2000bozo")
  {
    ParseIntegerRejects("");
    ParseIntegerRejects("2000bozo");
    assert !IsDigit("2000bozo"[4]);
  }

  /** The loopback address is accepted. */
  lemma LoopbackIsIPv4()
    ensures IsIPv4("127.0.0.1")
  {
    DottedQuadIsIPv4(127, 0, 0, 1);
    LoopbackPrinted();
  }

  /** An empty address, a host name and five octets are refused. */
  lemma MalformedAddresses()
    ensures !IsIPv4("") && !IsIPv4("invalid") && !IsIPv4("1.2.3.4.5")
  {
    SplitClean("invalid", '.');
    FivePartAddress();
  }

  lemma FivePartAddress()
    ensures |Split("1.2.3.4.5", '.')| == 5
  {
    assert "1.2.3.4.5" == Join(["1", "2", "3", "4", "5"], '.');
    SplitJoin(["1", "2", "3", "4", "5"], '.');
  }

  // Printed forms of the numbers the examples use, each checked on its own.
  lemma LoopbackPrinted() ensures DottedQuad(127, 0, 0, 1) == "127.0.0.1"
  {
    Prints127();
    assert DottedQuad(127, 0, 0, 1) == "127" + "." + "0" + "." + "0" + "." + "1";
  }
  lemma Prints127() ensures DecimalString(127) == "127" {}
  lemma Prints3306() ensures DecimalString(3306) == "3306" {}
  lemma Prints65532() ensures DecimalString(65532) == "65532" {}
  lemma Prints65533() ensures DecimalString(65533) == "65533" {}
  lemma Prints65536() ensures DecimalString(65536) == "65536" {}
  lemma Prints999999() ensures DecimalString(999999) == "999999" {}
}
