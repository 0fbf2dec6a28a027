/** Prosody's TURN configuration: a nine-way fold over the environment list, the last entry of a name winning. */
module Turn {
  import opened Basics
  import opened Resources
  import Environment

  datatype TurnConfig = TurnConfig(
    xmppDomain: string,
    turnCredentials: string,
    turnHost: string,
    stunHost: string,
    turnPort: string,
    stunPort: string,
    turnsPort: string,
    stunEnabled: bool,
    turnUdpEnabled: bool)

  /** Secrets of the namespace, by name and key. */
  type Secrets = map<string, map<string, string>>

  /** The variables the configuration is made of. */
  datatype Key =
    | XmppDomain | Credentials | TurnHost | StunHost | TurnPort | StunPort | TurnsPort | StunEnabled | TurnUdpEnabled
    | Unused

  function KeyOf(name: string): Key {
    match name
    case "XMPP_DOMAIN" => XmppDomain
    case "TURNCREDENTIALS_SECRET" => Credentials
    case "TURN_HOST" => TurnHost
    case "STUN_HOST" => StunHost
    case "TURN_PORT" => TurnPort
    case "STUN_PORT" => StunPort
    case "TURNS_PORT" => TurnsPort
    case "STUN_ENABLED" => StunEnabled
    case "TURN_UDP_ENABLED" => TurnUdpEnabled
    case _ => Unused
  }

  function LastEntry(envs: seq<EnvVar>, key: Key): Option<EnvVar> {
    if envs == [] then None
    else if KeyOf(envs[|envs| - 1].name) == key then Some(envs[|envs| - 1])
    else LastEntry(envs[..|envs| - 1], key)
  }

  function ValueOf(envs: seq<EnvVar>, key: Key): string {
    match LastEntry(envs, key)
    case Some(e) => e.value
    case None => ""
  }

  /** A credential entry refers to a ConfigMap, which the source dereferences as a Secret. */
  predicate Crashes(e: EnvVar) {
    KeyOf(e.name) == Credentials && e.source.ConfigMapKey?
  }

  function SecretValue(secrets: Secrets, name: string, key: string): string {
    if name in secrets && key in secrets[name] then secrets[name][key] else ""
  }

  function Credential(e: EnvVar, secrets: Secrets): string {
    match e.source
    case Literal => e.value
    case SecretKey(name, key) => SecretValue(secrets, name, key)
    case _ => ""
  }

  /** The configuration as a lookup of the last entry of each variable. */
  function LastWins(envs: seq<EnvVar>, secrets: Secrets): TurnConfig {
    TurnConfig(
      ValueOf(envs, XmppDomain),
      match LastEntry(envs, Credentials) case Some(e) => Credential(e, secrets) case None => "",
      ValueOf(envs, TurnHost),
      ValueOf(envs, StunHost),
      ValueOf(envs, TurnPort),
      ValueOf(envs, StunPort),
      ValueOf(envs, TurnsPort),
      ValueOf(envs, StunEnabled) == "true",
      ValueOf(envs, TurnUdpEnabled) == "true")
  }

  /** `value` is what the last entry with the name says, and empty where there is none. */
  ghost predicate Reads(envs: seq<EnvVar>, name: string, value: string) {
    && (forall i :: Environment.LastAt(envs, name, i) ==> value == envs[i].value)
    && ((forall i :: 0 <= i < |envs| ==> envs[i].name != name) ==> value == "")
  }

  /** The flag is set if the last entry with the name says so, in these letters. */
  ghost predicate Flags(envs: seq<EnvVar>, name: string, flag: bool) {
    && (forall i :: Environment.LastAt(envs, name, i) ==> (flag <==> envs[i].value == "true"))
    && ((forall i :: 0 <= i < |envs| ==> envs[i].name != name) ==> !flag)
  }

  /** The credentials are the value of the last entry, or what the Secret it refers to holds under its key. */
  ghost predicate Trusts(envs: seq<EnvVar>, secrets: Secrets, credentials: string) {
    && (forall i :: Environment.LastAt(envs, "TURNCREDENTIALS_SECRET", i) ==>
          match envs[i].source
          case Literal => credentials == envs[i].value
          case SecretKey(name, key) =>
            credentials == if name in secrets && key in secrets[name] then secrets[name][key] else ""
          case _ => credentials == "")
    && ((forall i :: 0 <= i < |envs| ==> envs[i].name != "TURNCREDENTIALS_SECRET") ==> credentials == "")
  }

  /** Every field of the configuration by the name of its variable. */
  ghost predicate Configures(envs: seq<EnvVar>, secrets: Secrets, config: TurnConfig) {
    && Reads(envs, "XMPP_DOMAIN", config.xmppDomain)
    && Trusts(envs, secrets, config.turnCredentials)
    && Reads(envs, "TURN_HOST", config.turnHost)
    && Reads(envs, "STUN_HOST", config.stunHost)
    && Reads(envs, "TURN_PORT", config.turnPort)
    && Reads(envs, "STUN_PORT", config.stunPort)
    && Reads(envs, "TURNS_PORT", config.turnsPort)
    && Flags(envs, "STUN_ENABLED", config.stunEnabled)
    && Flags(envs, "TURN_UDP_ENABLED", config.turnUdpEnabled)
  }

  lemma OneNamePerKey(a: string, b: string)
    requires KeyOf(a) == KeyOf(b) && KeyOf(a) != Unused
    ensures a == b
  {
  }

  lemma {:induction false} LastEntryByName(envs: seq<EnvVar>, name: string)
    requires KeyOf(name) != Unused
    ensures forall i :: Environment.LastAt(envs, name, i) ==> LastEntry(envs, KeyOf(name)) == Some(envs[i])
    ensures (forall i :: 0 <= i < |envs| ==> envs[i].name != name) ==> LastEntry(envs, KeyOf(name)) == None
  {
    hide KeyOf;
    if envs != [] {
      var init, last := envs[..|envs| - 1], envs[|envs| - 1];
      LastEntryByName(init, name);
      if KeyOf(last.name) == KeyOf(name) {
        OneNamePerKey(last.name, name);
      } else {
        forall i | Environment.LastAt(envs, name, i) ensures LastEntry(envs, KeyOf(name)) == Some(envs[i]) {
          assert Environment.LastAt(init, name, i);
        }
        assert forall i :: 0 <= i < |init| ==> init[i] == envs[i];
      }
    }
  }

  lemma ValueReads(envs: seq<EnvVar>, name: string)
    requires KeyOf(name) != Unused
    ensures Reads(envs, name, ValueOf(envs, KeyOf(name)))
    ensures Flags(envs, name, ValueOf(envs, KeyOf(name)) == "true")
  {
    hide KeyOf, LastEntry;
    LastEntryByName(envs, name);
  }

  lemma KeysByName()
    ensures KeyOf("XMPP_DOMAIN") == XmppDomain && KeyOf("TURNCREDENTIALS_SECRET") == Credentials
    ensures KeyOf("TURN_HOST") == TurnHost && KeyOf("STUN_HOST") == StunHost
    ensures KeyOf("TURN_PORT") == TurnPort && KeyOf("STUN_PORT") == StunPort && KeyOf("TURNS_PORT") == TurnsPort
    ensures KeyOf("STUN_ENABLED") == StunEnabled && KeyOf("TURN_UDP_ENABLED") == TurnUdpEnabled
  {
  }

  lemma CredentialsTrusted(envs: seq<EnvVar>, secrets: Secrets)
    ensures Trusts(envs, secrets, LastWins(envs, secrets).turnCredentials)
  {
    hide LastEntry, ValueOf, KeyOf;
    KeysByName();
    LastEntryByName(envs, "TURNCREDENTIALS_SECRET");
  }

  lemma LastWinsConfigures(envs: seq<EnvVar>, secrets: Secrets)
    ensures Configures(envs, secrets, LastWins(envs, secrets))
  {
    hide LastEntry, ValueOf, Reads, Flags, Trusts, KeyOf;
    KeysByName();
    CredentialsTrusted(envs, secrets);
    ValueReads(envs, "XMPP_DOMAIN");
    ValueReads(envs, "TURN_HOST");
    ValueReads(envs, "STUN_HOST");
    ValueReads(envs, "TURN_PORT");
    ValueReads(envs, "STUN_PORT");
    ValueReads(envs, "TURNS_PORT");
    ValueReads(envs, "STUN_ENABLED");
    ValueReads(envs, "TURN_UDP_ENABLED");
  }

  lemma CrashesByName(e: EnvVar)
    ensures Crashes(e) <==> e.name == "TURNCREDENTIALS_SECRET" && e.source.ConfigMapKey?
  {
    if Crashes(e) { OneNamePerKey(e.name, "TURNCREDENTIALS_SECRET"); }
  }

  lemma LastEntryStep(envs: seq<EnvVar>, i: nat, key: Key)
    requires i < |envs|
    ensures LastEntry(envs[..i + 1], key) ==
            if KeyOf(envs[i].name) == key then Some(envs[i]) else LastEntry(envs[..i], key)
  {
    assert envs[..i + 1][..i] == envs[..i];
  }

  lemma ValueStep(envs: seq<EnvVar>, i: nat, key: Key)
    requires i < |envs|
    ensures ValueOf(envs[..i + 1], key) == if KeyOf(envs[i].name) == key then envs[i].value else ValueOf(envs[..i], key)
  {
    hide LastEntry, KeyOf;
    LastEntryStep(envs, i, key);
  }

  /** The turn of the loop for one entry. */
  function Put(config: TurnConfig, e: EnvVar, secrets: Secrets): TurnConfig {
    match KeyOf(e.name)
    case XmppDomain => config.(xmppDomain := e.value)
    case Credentials => config.(turnCredentials := Credential(e, secrets))
    case TurnHost => config.(turnHost := e.value)
    case StunHost => config.(stunHost := e.value)
    case TurnPort => config.(turnPort := e.value)
    case StunPort => config.(stunPort := e.value)
    case TurnsPort => config.(turnsPort := e.value)
    case StunEnabled => config.(stunEnabled := e.value == "true")
    case TurnUdpEnabled => config.(turnUdpEnabled := e.value == "true")
    case Unused => config
  }

  lemma LastWinsStep(envs: seq<EnvVar>, i: nat, secrets: Secrets)
    requires i < |envs|
    ensures LastWins(envs[..i + 1], secrets) == Put(LastWins(envs[..i], secrets), envs[i], secrets)
  {
    hide KeyOf, Credential, LastEntry, ValueOf;
    LastEntryStep(envs, i, Credentials);
    ValueStep(envs, i, XmppDomain);
    ValueStep(envs, i, TurnHost);
    ValueStep(envs, i, StunHost);
    ValueStep(envs, i, TurnPort);
    ValueStep(envs, i, StunPort);
    ValueStep(envs, i, TurnsPort);
    ValueStep(envs, i, StunEnabled);
    ValueStep(envs, i, TurnUdpEnabled);
  }

  /**
   `getTurnCredentialsConfig`. The result is `None` when the source panics: some credential
   entry refers to a ConfigMap.
   */
  method GetTurnCredentialsConfig(envs: seq<EnvVar>, secrets: Secrets) returns (r: Option<TurnConfig>)
    ensures r == if exists i :: 0 <= i < |envs| && Crashes(envs[i]) then None else Some(LastWins(envs, secrets))
    ensures r == None <==>
            exists i :: 0 <= i < |envs| && envs[i].name == "TURNCREDENTIALS_SECRET" && envs[i].source.ConfigMapKey?
    ensures r.Some? ==> Configures(envs, secrets, r.value)
  {
    hide KeyOf, SecretValue, LastEntry, LastWins, Configures;
    forall e ensures Crashes(e) <==> e.name == "TURNCREDENTIALS_SECRET" && e.source.ConfigMapKey? { CrashesByName(e); }
    LastWinsConfigures(envs, secrets);
    var config := TurnConfig("", "", "", "", "", "", "", false, false);
    NothingYet(envs, secrets);
    for i := 0 to |envs|
      invariant forall j :: 0 <= j < i ==> !Crashes(envs[j])
      invariant config == LastWins(envs[..i], secrets)
    {
      var env := envs[i];
      LastWinsStep(envs, i, secrets);
      match KeyOf(env.name) {
        case XmppDomain => config := config.(xmppDomain := env.value);
        case Credentials =>
          match env.source {
            case Literal => config := config.(turnCredentials := env.value);
            case SecretKey(name, key) => config := config.(turnCredentials := SecretValue(secrets, name, key));
            case ConfigMapKey(_, _) => return None;
            case OtherSource => config := config.(turnCredentials := "");
          }
        case TurnHost => config := config.(turnHost := env.value);
        case StunHost => config := config.(stunHost := env.value);
        case TurnPort => config := config.(turnPort := env.value);
        case StunPort => config := config.(stunPort := env.value);
        case TurnsPort => config := config.(turnsPort := env.value);
        case StunEnabled => config := config.(stunEnabled := env.value == "true");
        case TurnUdpEnabled => config := config.(turnUdpEnabled := env.value == "true");
        case Unused =>
      }
    }
    assert envs[..|envs|] == envs;
    return Some(config);
  }

  lemma NothingYet(envs: seq<EnvVar>, secrets: Secrets)
    ensures LastWins(envs[..0], secrets) == TurnConfig("", "", "", "", "", "", "", false, false)
  {
    assert forall key :: LastEntry(envs[..0], key) == None;
  }

  // ---- Order ----

  /** The entries of one variable, in order. */
  function Named(envs: seq<EnvVar>, key: Key): seq<EnvVar> {
    if envs == [] then []
    else Named(envs[..|envs| - 1], key) + (if KeyOf(envs[|envs| - 1].name) == key then [envs[|envs| - 1]] else [])
  }

  lemma {:induction false} LastEntryIsLastNamed(envs: seq<EnvVar>, key: Key)
    ensures var es := Named(envs, key); LastEntry(envs, key) == if es == [] then None else Some(es[|es| - 1])
  {
    if envs != [] { LastEntryIsLastNamed(envs[..|envs| - 1], key); }
  }

  lemma {:induction false} NamedHas(envs: seq<EnvVar>, e: EnvVar)
    ensures e in Named(envs, KeyOf(e.name)) <==> e in envs
  {
    if envs != [] {
      var init, last := envs[..|envs| - 1], envs[|envs| - 1];
      NamedHas(init, e);
      assert envs == init + [last];
    }
  }

  lemma SameEntries(a: seq<EnvVar>, b: seq<EnvVar>, secrets: Secrets)
    requires forall key :: key != Unused ==> LastEntry(a, key) == LastEntry(b, key)
    ensures LastWins(a, secrets) == LastWins(b, secrets)
  {
    hide LastEntry, Credential;
  }

  lemma SameCrashes(a: seq<EnvVar>, b: seq<EnvVar>, e: EnvVar)
    requires Crashes(e) && Named(a, Credentials) == Named(b, Credentials)
    ensures e in a <==> e in b
  {
    hide Named, KeyOf;
    NamedHas(a, e);
    NamedHas(b, e);
  }

  /**
   Reordering entries, or adding unrelated ones, changes neither the configuration nor whether
   the source panics, as long as the entries of each variable keep their order.
   */
  lemma OrderAcrossNamesIsIrrelevant(a: seq<EnvVar>, b: seq<EnvVar>, secrets: Secrets)
    requires forall key :: key != Unused ==> Named(a, key) == Named(b, key)
    ensures LastWins(a, secrets) == LastWins(b, secrets)
    ensures (exists e :: e in a && Crashes(e)) <==> (exists e :: e in b && Crashes(e))
  {
    hide LastWins, LastEntry, Named, Crashes;
    forall key | key != Unused ensures LastEntry(a, key) == LastEntry(b, key) {
      LastEntryIsLastNamed(a, key);
      LastEntryIsLastNamed(b, key);
    }
    SameEntries(a, b, secrets);
    forall e: EnvVar | Crashes(e) ensures e in a <==> e in b { SameCrashes(a, b, e); }
  }

  lemma {:induction false} NamedAppend(a: seq<EnvVar>, b: seq<EnvVar>, key: Key)
    ensures Named(a + b, key) == Named(a, key) + Named(b, key)
  {
    if b == [] {
      assert a + b == a;
    } else {
      assert (a + b)[..|a + b| - 1] == a + b[..|b| - 1];
      NamedAppend(a, b[..|b| - 1], key);
    }
  }

  lemma NamedPair(x: EnvVar, y: EnvVar, key: Key)
    requires KeyOf(x.name) != key || KeyOf(y.name) != key
    ensures Named([x, y], key) == Named([y, x], key)
  {
    assert [x, y][..1] == [x] && [y, x][..1] == [y] && [x][..0] == [] && [y][..0] == [];
  }

  /** Neighbours that are not entries of one variable may change places. */
  lemma NeighboursCommute(a: seq<EnvVar>, x: EnvVar, y: EnvVar, b: seq<EnvVar>, secrets: Secrets)
    requires KeyOf(x.name) != KeyOf(y.name) || KeyOf(x.name) == Unused
    ensures LastWins(a + [x, y] + b, secrets) == LastWins(a + [y, x] + b, secrets)
  {
    forall key | key != Unused ensures Named(a + [x, y] + b, key) == Named(a + [y, x] + b, key) {
      NamedAppend(a + [x, y], b, key);
      NamedAppend(a + [y, x], b, key);
      NamedAppend(a, [x, y], key);
      NamedAppend(a, [y, x], key);
      NamedPair(x, y, key);
    }
    OrderAcrossNamesIsIrrelevant(a + [x, y] + b, a + [y, x] + b, secrets);
  }
}
