/**
 * `ConfigGenerator::fetch_bootstrap_servers`: folds the rows of the
 * metadata query (cluster, replicaset, topology, classic address) into the
 * list of bootstrap server URLs, the cluster and replicaset names and the
 * multi-master flag.
 */
module BootstrapServers {
  import opened Wrappers
  import opened Text

  /** One row of the metadata query. */
  datatype MetadataRow = MetadataRow(cluster: string, replicaset: string, topology: string, address: string)

  /** The out-parameters of a successful fetch. */
  datatype BootstrapInfo = BootstrapInfo(servers: string, cluster: string, replicaset: string, multiMaster: bool)

  datatype FetchError =
    | NoClusters
    | MultipleClusters
    | MultipleReplicasets
    | UnknownTopology(topology: string)

  /** "pm" is single-primary, "mm" multi-master; nothing else is known. */
  function TopologyIsMultiMaster(topology: string): Option<bool>
  {
    if topology == "pm" then Some(false)
    else if topology == "mm" then Some(true)
    else None
  }

  /** What is wrong with a row, measured against the first row, if anything. */
  function RowError(first: MetadataRow, row: MetadataRow): Option<FetchError>
  {
    if row.cluster != first.cluster then Some(MultipleClusters)
    else if row.replicaset != first.replicaset then Some(MultipleReplicasets)
    else if TopologyIsMultiMaster(row.topology).None? then Some(UnknownTopology(row.topology))
    else None
  }

  /** One `mysql://` URL per row, in row order. */
  function Urls(rows: seq<MetadataRow>): (urls: seq<string>)
    ensures |urls| == |rows|
  {
    seq(|rows|, i requires 0 <= i < |rows| => "mysql://" + rows[i].address)
  }

  /** Rows that all belong to the first row's cluster and replicaset and have a known topology. */
  predicate Acceptable(rows: seq<MetadataRow>)
  {
    rows != [] && forall i :: 0 <= i < |rows| ==> RowError(rows[0], rows[i]).None?
  }

  lemma {:induction false} JoinSnoc(parts: seq<string>, p: string, sep: char)
    requires |parts| >= 1
    ensures Join(parts + [p], sep) == Join(parts, sep) + [sep] + p
    decreases |parts|
  {
    if |parts| == 1 {
      assert parts + [p] == [parts[0], p];
      assert [parts[0], p][1..] == [p];
    } else {
      assert (parts + [p])[1..] == parts[1..] + [p];
      JoinSnoc(parts[1..], p, sep);
    }
  }

  /**
   * The fetch: the first row fixes the cluster and replicaset; every row must
   * match them and carry a known topology, and the last row's topology
   * decides multi-master. Zero rows means no cluster is defined.
   */
  method FetchBootstrapServers(rows: seq<MetadataRow>) returns (r: Result<BootstrapInfo, FetchError>)
    ensures rows == [] ==> r == Err(NoClusters)
    ensures r.Ok? <==> Acceptable(rows)
    ensures r.Ok? ==> r.value == BootstrapInfo(Join(Urls(rows), ','), rows[0].cluster, rows[0].replicaset,
                                               rows[|rows| - 1].topology == "mm")
    ensures r.Err? && rows != [] ==>
      exists i :: 0 <= i < |rows| && RowError(rows[0], rows[i]) == Some(r.error) &&
        forall j :: 0 <= j < i ==> RowError(rows[0], rows[j]).None?
  {
    var servers := "";
    var cluster := "";
    var replicaset := "";
    var multiMaster := false;
    for i := 0 to |rows|
      invariant i == 0 ==> servers == ""
      invariant i > 0 ==> servers == Join(Urls(rows[..i]), ',')
      invariant i > 0 ==> cluster == rows[0].cluster && replicaset == rows[0].replicaset
      invariant i > 0 ==> multiMaster == (rows[i - 1].topology == "mm")
      invariant forall j :: 0 <= j < i ==> RowError(rows[0], rows[j]).None?
    {
      var row := rows[i];
      if i == 0 {
        cluster, replicaset := row.cluster, row.replicaset;
      } else if row.cluster != cluster {
        return Err(MultipleClusters);
      } else if row.replicaset != replicaset {
        return Err(MultipleReplicasets);
      }
      if row.topology == "pm" {
        multiMaster := false;
      } else if row.topology == "mm" {
        multiMaster := true;
      } else {
        return Err(UnknownTopology(row.topology));
      }
      var url := "mysql://" + row.address;
      assert Urls(rows[..i + 1]) == Urls(rows[..i]) + [url];
      if servers != "" {
        servers := servers + ",";
      }
      if i > 0 {
        JoinSnoc(Urls(rows[..i]), url, ',');
      } else {
        assert Urls(rows[..1]) == [url];
      }
      servers := servers + url;
    }
    if rows == [] {
      return Err(NoClusters);
    }
    assert rows[..|rows|] == rows;
    r := Ok(BootstrapInfo(servers, cluster, replicaset, multiMaster));
  }

  /**
   * The server list names every row's host once, in row order: splitting it
   * at the commas gives back one `mysql://` URL per row, as long as no
   * address contains a comma.
   */
  lemma ServersSplitBack(rows: seq<MetadataRow>)
    requires rows != []
    requires forall i :: 0 <= i < |rows| ==> ',' !in rows[i].address
    ensures Split(Join(Urls(rows), ','), ',') == Urls(rows)
  {
    var urls := Urls(rows);
    forall i | 0 <= i < |urls|
      ensures ',' !in urls[i]
    {
      assert urls[i] == "mysql://" + rows[i].address;
    }
    SplitJoin(urls, ',');
  }

  // ---------------------------------------------------------------------
  // The fetch_bootstrap_servers cases
  // ---------------------------------------------------------------------

  method FetchOneSingleMaster() returns (r: Result<BootstrapInfo, FetchError>)
    ensures r == Ok(BootstrapInfo("mysql://" + "somehost:3306", "mycluster", "myreplicaset", false))
  {
    r := FetchBootstrapServers([MetadataRow("mycluster", "myreplicaset", "pm", "somehost:3306")]);
    assert Urls([MetadataRow("mycluster", "myreplicaset", "pm", "somehost:3306")])[0] == "mysql://" + "somehost:3306";
  }

  method FetchOneMultiMaster() returns (r: Result<BootstrapInfo, FetchError>)
    ensures r == Ok(BootstrapInfo("mysql://" + "somehost:3306", "mycluster", "myreplicaset", true))
  {
    r := FetchBootstrapServers([MetadataRow("mycluster", "myreplicaset", "mm", "somehost:3306")]);
    assert Urls([MetadataRow("mycluster", "myreplicaset", "mm", "somehost:3306")])[0] == "mysql://" + "somehost:3306";
  }

  method FetchUnknownTopology() returns (r: Result<BootstrapInfo, FetchError>)
    ensures r == Err(UnknownTopology("xxx"))
  {
    var row := MetadataRow("mycluster", "myreplicaset", "xxx", "somehost:3306");
    r := FetchBootstrapServers([row]);
    assert RowError(row, row) == Some(UnknownTopology("xxx"));
  }

  method FetchThree() returns (r: Result<BootstrapInfo, FetchError>)
    ensures r == Ok(BootstrapInfo(
      ("mysql://" + "somehost:3306") + "," + ("mysql://" + "otherhost:3306") + "," + ("mysql://" + "sumhost:3306"),
      "mycluster", "myreplicaset", false))
  {
    var rows := [
      MetadataRow("mycluster", "myreplicaset", "pm", "somehost:3306"),
      MetadataRow("mycluster", "myreplicaset", "pm", "otherhost:3306"),
      MetadataRow("mycluster", "myreplicaset", "pm", "sumhost:3306")];
    r := FetchBootstrapServers(rows);
    var urls := ["mysql://" + "somehost:3306", "mysql://" + "otherhost:3306", "mysql://" + "sumhost:3306"];
    assert Urls(rows)[0] == urls[0] && Urls(rows)[1] == urls[1] && Urls(rows)[2] == urls[2];
    assert Urls(rows) == urls;
    assert urls[1..] == ["mysql://" + "otherhost:3306", "mysql://" + "sumhost:3306"];
    assert urls[1..][1..] == ["mysql://" + "sumhost:3306"];
    assert Join(urls[1..], ',') == urls[1] + [','] + urls[2];
    assert Join(urls, ',') == urls[0] + [','] + (urls[1] + [','] + urls[2]);
    ConcatRegroup(urls[0] + [','], urls[1], [','], urls[2]);
  }

  method FetchMultipleReplicasets() returns (r: Result<BootstrapInfo, FetchError>)
    ensures r == Err(MultipleReplicasets)
  {
    var rows := [
      MetadataRow("mycluster", "myreplicaset", "pm", "somehost:3306"),
      MetadataRow("mycluster", "anotherreplicaset", "pm", "otherhost:3306")];
    r := FetchBootstrapServers(rows);
    assert RowError(rows[0], rows[0]).None?;
    assert RowError(rows[0], rows[1]) == Some(MultipleReplicasets);
  }

  method FetchMultipleClusters() returns (r: Result<BootstrapInfo, FetchError>)
    ensures r == Err(MultipleClusters)
  {
    var rows := [
      MetadataRow("mycluster", "myreplicaset", "pm", "somehost:3306"),
      MetadataRow("anothercluster", "anotherreplicaset", "pm", "otherhost:3306")];
    r := FetchBootstrapServers(rows);
    assert RowError(rows[0], rows[0]).None?;
    assert RowError(rows[0], rows[1]) == Some(MultipleClusters);
  }

  method FetchNoRows() returns (r: Result<BootstrapInfo, FetchError>)
    ensures r == Err(NoClusters)
  {
    r := FetchBootstrapServers([]);
  }
}
