/**
 * The checks a bootstrap makes before it writes anything: the router name,
 * the length of the keyring master key, the `--ssl-mode` value, and whether
 * a configuration already in the target directory may be replaced.
 */
module BootstrapChecks {
  import opened Wrappers
  import opened Bytes
  import opened Text
  import opened EntryStore
  import opened Codec

  // ---------------------------------------------------------------------
  // Router name
  // ---------------------------------------------------------------------

  const MaxRouterNameLength: nat := 255
  const ReservedName: string := "system"

  /** What an acceptable router name looks like, stated character by character. */
  predicate ValidRouterName(name: string)
  {
    name != ReservedName
    && (forall i :: 0 <= i < |name| ==> name[i] != '\n' && name[i] != '\r')
    && |name| <= MaxRouterNameLength
  }

  /**
   * The name check: the reserved name first, then line breaks, then length.
   * An accepted name is passed on unchanged; the empty name is accepted
   * (the caller then falls back to a default name).
   */
  function CheckRouterName(name: string): (r: Result<string, string>)
    ensures r.Ok? <==> ValidRouterName(name)
    ensures r.Ok? ==> r.value == name
    ensures name == ReservedName ==> r == Err("Router name '" + "system" + "' is reserved")
    ensures name != ReservedName && ('\n' in name || '\r' in name) ==>
      r == Err("Router name '" + name + "' contains invalid characters.")
    ensures r.Err? && name != ReservedName && '\n' !in name && '\r' !in name ==>
      Contains(r.error, "too long (max 255).")
  {
    if name == ReservedName then
      Err("Router name '" + "system" + "' is reserved")
    else if '\n' in name || '\r' in name then
      Err("Router name '" + name + "' contains invalid characters.")
    else if |name| > MaxRouterNameLength then
      ContainsMiddle("Router name '" + name + "' is ", "too long (max 255).", "");
      Err("Router name '" + name + "' is " + "too long (max 255)." + "")
    else
      Ok(name)
  }

  /** `n` copies of `s` back to back. */
  function Repeat(s: string, n: nat): (r: string)
    ensures |r| == n * |s|
    ensures forall i :: 0 <= i < |r| ==> r[i] in s
  {
    if n == 0 then "" else s + Repeat(s, n - 1)
  }

  /** The 256-character name the bootstrap must refuse. */
  function VeryLongName(): (name: string)
    ensures |name| == MaxRouterNameLength + 1
    ensures '\n' !in name && '\r' !in name
  {
    Repeat("very", 62) + "longname"
  }

  /** The names the bootstrap accepts and refuses, with the messages it gives. */
  lemma RouterNameExamples()
    ensures CheckRouterName("myname") == Ok("myname")
    ensures CheckRouterName("") == Ok("")
    ensures CheckRouterName("system").Err?
    ensures Contains(CheckRouterName("system").error, "Router name 'system' is reserved")
    ensures CheckRouterName("new\nline") == Err("Router name '" + "new\nline" + "' contains invalid characters.")
    ensures CheckRouterName("car\rreturn") == Err("Router name '" + "car\rreturn" + "' contains invalid characters.")
  {
    var reserved := "Router name '" + "system" + "' is reserved";
    ContainsMiddle("", reserved, "");
    assert "" + reserved + "" == reserved == "Router name 'system' is reserved";
    var nl := "new\nline";
    assert nl[3] == '\n';
    var cr := "car\rreturn";
    assert cr[3] == '\r';
  }

  /** The 256-character name is refused as too long. */
  lemma RouterNameTooLong()
    ensures CheckRouterName(VeryLongName()).Err?
    ensures Contains(CheckRouterName(VeryLongName()).error, "too long (max 255).")
  {
    var name := VeryLongName();
    assert name != ReservedName by {
      assert |name| != |ReservedName|;
    }
  }

  // ---------------------------------------------------------------------
  // Master key
  // ---------------------------------------------------------------------

  const KeyTooLongMessage: string := "Master key is " + "too long"

  /** The master key typed at the prompt must fit the keyring's key limit. */
  function CheckMasterKey(key: Bytes): (r: Result<Bytes, string>)
    ensures r.Ok? <==> |key| <= MaxKeyLength
    ensures r.Ok? ==> r.value == key
    ensures r.Err? ==> Contains(r.error, "too long")
  {
    if |key| > MaxKeyLength then
      ContainsMiddle("Master key is ", "too long", "");
      assert "Master key is " + "too long" + "" == KeyTooLongMessage;
      Err(KeyTooLongMessage)
    else
      Ok(key)
  }

  /** A key the bootstrap accepts is exactly a key the keyring can seal and open with. */
  lemma MasterKeyAgreesWithKeyring(c: Cipher, key: Bytes, iv: Bytes, buf: Bytes, m: Entries)
    ensures CheckMasterKey(key).Ok? <==> Seal(c, key, iv, m) != Err(KeyTooLong)
    ensures CheckMasterKey(key).Ok? <==> Unseal(c, key, buf) != Err(KeyTooLong)
  {
    SealKeyLength(c, key, iv, buf, m);
  }

  /** `n` bytes of the letter `x`. */
  function Xs(n: nat): (key: Bytes)
    ensures |key| == n
  {
    seq(n, _ => 120 as byte)
  }

  /** Keys of 250 and 255 bytes pass; 256 and 5000 bytes are too long. */
  lemma MasterKeyExamples()
    ensures CheckMasterKey(Xs(250)).Ok?
    ensures CheckMasterKey(Xs(255)).Ok?
    ensures CheckMasterKey(Xs(256)).Err? && Contains(CheckMasterKey(Xs(256)).error, "too long")
    ensures CheckMasterKey(Xs(5000)).Err? && Contains(CheckMasterKey(Xs(5000)).error, "too long")
  {
  }

  // ---------------------------------------------------------------------
  // SSL mode
  // ---------------------------------------------------------------------

  datatype SslMode = Disabled | Preferred | Required | VerifyCa | VerifyIdentity
  {
    /** The canonical, upper-case spelling of the mode. */
    function Name(): string
    {
      match this
      case Disabled => "DISABLED"
      case Preferred => "PREFERRED"
      case Required => "REQUIRED"
      case VerifyCa => "VERIFY_CA"
      case VerifyIdentity => "VERIFY_IDENTITY"
    }
  }

  const InvalidSslMode: string := "Invalid value for --ssl-mode option"

  function UpperChar(c: char): char
  {
    if 'a' <= c <= 'z' then (c as int - 32) as char else c
  }

  function Upper(s: string): (u: string)
    ensures |u| == |s|
    ensures forall i :: 0 <= i < |s| ==> u[i] == UpperChar(s[i])
  {
    seq(|s|, i requires 0 <= i < |s| => UpperChar(s[i]))
  }

  /** Two strings that differ at most in the case of ASCII letters. */
  predicate SameIgnoringCase(a: string, b: string)
  {
    |a| == |b| && forall i :: 0 <= i < |a| ==> UpperChar(a[i]) == UpperChar(b[i])
  }

  /** Every mode name is already in upper case. */
  lemma NameIsUpper(m: SslMode)
    ensures Upper(m.Name()) == m.Name()
  {
    var n := m.Name();
    assert forall i :: 0 <= i < |n| ==> UpperChar(n[i]) == n[i];
  }

  lemma SameIgnoringCaseUpper(s: string, m: SslMode)
    ensures SameIgnoringCase(s, m.Name()) <==> Upper(s) == m.Name()
  {
    NameIsUpper(m);
    var n := m.Name();
    if Upper(s) == n {
      assert forall i :: 0 <= i < |s| ==> UpperChar(s[i]) == Upper(s)[i];
    }
    if SameIgnoringCase(s, n) {
      assert forall i :: 0 <= i < |s| ==> Upper(s)[i] == Upper(n)[i];
    }
  }

  lemma NamesDistinct(m: SslMode, m': SslMode)
    ensures m.Name() == m'.Name() <==> m == m'
  {
  }

  /** The `--ssl-mode` value: one of the mode names, in any mix of upper and lower case. */
  function ParseSslMode(s: string): (r: Result<SslMode, string>)
    ensures forall m: SslMode :: r == Ok(m) <==> SameIgnoringCase(s, m.Name())
    ensures r.Err? ==> r.error == InvalidSslMode
  {
    var u := Upper(s);
    var r :=
      if u == Disabled.Name() then Ok(Disabled)
      else if u == Preferred.Name() then Ok(Preferred)
      else if u == Required.Name() then Ok(Required)
      else if u == VerifyCa.Name() then Ok(VerifyCa)
      else if u == VerifyIdentity.Name() then Ok(VerifyIdentity)
      else Err(InvalidSslMode);
    assert forall m: SslMode :: r == Ok(m) <==> u == m.Name() by {
      forall m: SslMode ensures r == Ok(m) <==> u == m.Name() {
        if r.Ok? { NamesDistinct(m, r.value); }
      }
    }
    forall m: SslMode ensures u == m.Name() <==> SameIgnoringCase(s, m.Name()) {
      SameIgnoringCaseUpper(s, m);
    }
    r
  }

  /** Each mode's own name parses back to the mode. */
  lemma ParseSslModeOfName(m: SslMode)
    ensures ParseSslMode(m.Name()) == Ok(m)
  {
    var n := m.Name();
    assert SameIgnoringCase(n, n);
  }

  /** A value shorter than every mode name is refused. */
  lemma SslModeRejected()
    ensures ParseSslMode("bad") == Err(InvalidSslMode)
  {
    forall m: SslMode ensures !SameIgnoringCase("bad", m.Name()) {
      assert |m.Name()| >= 8;
    }
  }

  /** The spellings the bootstrap accepts, whatever their letter case. */
  lemma SslModeSpellings()
    ensures ParseSslMode("DISABLED") == Ok(Disabled)
    ensures ParseSslMode("preferred") == Ok(Preferred)
    ensures ParseSslMode("rEqUIrEd") == Ok(Required)
    ensures ParseSslMode("VERIFY_CA") == Ok(VerifyCa)
    ensures ParseSslMode("verify_identity") == Ok(VerifyIdentity)
  {
    ParseSslModeOfName(Disabled);
    ParseSslModeOfName(VerifyCa);
    PreferredLowerCase();
    RequiredMixedCase();
    VerifyIdentityLowerCase();
  }

  lemma PreferredLowerCase() ensures SameIgnoringCase("preferred", Preferred.Name()) {}
  lemma RequiredMixedCase() ensures SameIgnoringCase("rEqUIrEd", Required.Name()) {}
  lemma VerifyIdentityLowerCase() ensures SameIgnoringCase("verify_identity", VerifyIdentity.Name()) {}

  // ---------------------------------------------------------------------
  // Replacing an existing configuration
  // ---------------------------------------------------------------------

  /** What a configuration file in the target directory was generated for. */
  datatype Deployment = Deployment(name: string, cluster: string)

  const ForceHint: string := "If you'd like to replace it, please use the --force"

  const ForceMessage: string :=
    "The given directory already contains a config file for a different cluster. "
    + ForceHint + " option."

  /**
   * Whether a bootstrap for `requested` may go ahead given what the
   * directory already holds, and if so whether the old file must be kept as
   * a backup.
   */
  function DecideOverwrite(existing: Option<Deployment>, requested: Deployment, force: bool): (r: Result<bool, string>)
    ensures r.Err? <==> existing.Some? && existing.value.cluster != requested.cluster && !force
    ensures r.Err? ==> Contains(r.error, ForceHint)
    ensures r.Ok? ==> (r.value <==> existing.Some? && existing.value != requested)
  {
    match existing
    case None => Ok(false)
    case Some(prior) =>
      if prior.cluster != requested.cluster && !force then
        ContainsMiddle("The given directory already contains a config file for a different cluster. ", ForceHint, " option.");
        Err(ForceMessage)
      else
        Ok(prior.name != requested.name || prior.cluster != requested.cluster)
  }

  /** A bootstrap output directory: its configuration file and whether a backup of an older one exists. */
  class DeploymentDirectory {
    var config: Option<Deployment>
    var backupExists: bool

    constructor()
      ensures config == None && !backupExists
    {
      config := None;
      backupExists := false;
    }

    /**
     * Bootstraps into this directory. A refused name or a refused overwrite
     * leaves the directory as it was; otherwise the configuration is
     * replaced, and a changed one is first kept as a backup.
     */
    method Bootstrap(requested: Deployment, force: bool) returns (r: Result<(), string>)
      modifies this
      ensures r.Ok? <==> ValidRouterName(requested.name)
                         && (old(config).None? || old(config).value.cluster == requested.cluster || force)
      ensures !ValidRouterName(requested.name) ==> r == Err(CheckRouterName(requested.name).error)
      ensures ValidRouterName(requested.name) && r.Err? ==> Contains(r.error, ForceHint)
      ensures r.Err? ==> config == old(config) && backupExists == old(backupExists)
      ensures r.Ok? ==> config == Some(requested)
      ensures r.Ok? ==> backupExists == (old(backupExists) || (old(config).Some? && old(config).value != requested))
    {
      var name := CheckRouterName(requested.name);
      if name.Err? {
        return Err(name.error);
      }
      var decision := DecideOverwrite(config, requested, force);
      if decision.Err? {
        return Err(decision.error);
      }
      if decision.value {
        backupExists := true;
      }
      config := Some(requested);
      r := Ok(());
    }
  }

  /**
   * One row of the overwrite table: bootstrap "myname" for "cluster" into a
   * fresh directory, then bootstrap again with the same or another name,
   * with or without --force, for the same or another cluster.
   */
  method OverwriteRow(sameName: bool, force: bool, sameCluster: bool) returns (second: Result<(), string>, backup: bool)
    ensures second.Ok? <==> sameCluster || force
    ensures second.Err? ==> Contains(second.error, ForceHint)
    ensures backup <==> second.Ok? && !(sameName && sameCluster)
  {
    var dir := new DeploymentDirectory();
    var first := dir.Bootstrap(Deployment("myname", "cluster"), force && sameCluster);
    assert first.Ok? by {
      assert "myname" != ReservedName;
      assert ValidRouterName("myname");
    }
    var name := if sameName then "myname" else "xmyname";
    var cluster := if sameCluster then "cluster" else "kluster";
    assert ValidRouterName(name) by {
      assert name != ReservedName;
    }
    assert cluster == "cluster" <==> sameCluster;
    assert name == "myname" <==> sameName;
    second := dir.Bootstrap(Deployment(name, cluster), force);
    backup := dir.backupExists;
  }
}
