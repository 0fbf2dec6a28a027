/** The environment list a reconcile hands to the pods: at most one generated block, never a logging level. */
module Environment {
  import opened Basics
  import opened Naming
  import opened Resources

  lemma ExtendEnvFixed(p: Plan, envs: seq<EnvVar>, r: int)
    ensures !WantsBlock(p, ExtendEnv(p, envs, r))
  {
    if WantsBlock(p, envs) {
      var block := PortBlock(p, r);
      var all := ExtendEnv(p, envs, r);
      var i := |all| - |block|;
      assert all[i..] == block;
      assert all[i] == block[0] && block[0].name == "JVB_PORT";
    }
  }

  /** The controller appends at most one block in its lifetime. */
  lemma ExtendEnvOnce(p: Plan, envs: seq<EnvVar>, r: int, q: int)
    ensures ExtendEnv(p, ExtendEnv(p, envs, r), q) == ExtendEnv(p, envs, r)
  {
    ExtendEnvFixed(p, envs, r);
  }

  /** The position of the last entry with a name. */
  predicate LastAt(envs: seq<EnvVar>, name: string, i: int) {
    0 <= i < |envs| && envs[i].name == name && forall j :: i < j < |envs| ==> envs[j].name != name
  }

  lemma {:induction false} LastValueIsLast(envs: seq<EnvVar>, name: string)
    ensures LastValue(envs, name).Some? <==> HasName(envs, name)
    ensures forall i :: LastAt(envs, name, i) ==> LastValue(envs, name) == Some(envs[i].value)
  {
    if envs != [] && envs[|envs| - 1].name != name {
      var init := envs[..|envs| - 1];
      LastValueIsLast(init, name);
      assert forall i :: LastAt(envs, name, i) ==> LastAt(init, name, i);
      if HasName(envs, name) {
        var i :| 0 <= i < |envs| && envs[i].name == name;
        assert init[i].name == name;
      }
    }
  }

  lemma {:induction false} LastValueAppend(envs: seq<EnvVar>, extra: seq<EnvVar>, name: string)
    requires !HasName(extra, name)
    ensures LastValue(envs + extra, name) == LastValue(envs, name)
  {
    if extra == [] {
      assert envs + extra == envs;
    } else {
      var all, init := envs + extra, extra[..|extra| - 1];
      assert all[|all| - 1] == extra[|extra| - 1];
      assert all[..|all| - 1] == envs + init;
      assert forall i :: 0 <= i < |init| ==> init[i] == extra[i];
      LastValueAppend(envs, init, name);
    }
  }

  lemma LastValueInBlock(init: seq<EnvVar>, block: seq<EnvVar>, name: string, k: nat)
    requires LastAt(block, name, k)
    ensures LastValue(init + block, name) == Some(block[k].value)
  {
    var all, i := init + block, |init| + k;
    assert all[i] == block[k];
    assert forall j :: i < j < |all| ==> all[j] == block[j - |init|];
    assert LastAt(all, name, i);
    LastValueIsLast(all, name);
  }

  lemma BlockPorts(p: Plan, envs: seq<EnvVar>, r: int)
    requires WantsBlock(p, envs)
    ensures var all, port := ExtendEnv(p, envs, r), Itoa(PortOf(p, r));
            if p.spec.protocol == "TCP" then
              && LastValue(all, "JVB_PORT") == Some("30300")
              && LastValue(all, "JVB_TCP_PORT") == LastValue(all, "JVB_TCP_MAPPED_PORT") == Some(port)
              && LastValue(all, "TCP_HARVESTER_PORT") == LastValue(all, "TCP_HARVESTER_MAPPED_PORT") == Some(port)
            else LastValue(all, "JVB_PORT") == Some(port)
  {
    hide Itoa, LastValue, PortOf;
    var host := if HasName(envs, "DOCKER_HOST_ADDRESS") then [] else [HostAddress(p, r)];
    var block := PortBlock(p, r);
    assert ExtendEnv(p, envs, r) == envs + host + block;
    LastValueInBlock(envs + host, block, "JVB_PORT", 0);
    if p.spec.protocol == "TCP" {
      LastValueInBlock(envs + host, block, "JVB_TCP_PORT", 1);
      LastValueInBlock(envs + host, block, "JVB_TCP_MAPPED_PORT", 2);
      LastValueInBlock(envs + host, block, "TCP_HARVESTER_PORT", 3);
      LastValueInBlock(envs + host, block, "TCP_HARVESTER_MAPPED_PORT", 4);
    }
  }

  lemma BlockHost(p: Plan, envs: seq<EnvVar>, r: int)
    requires WantsBlock(p, envs)
    ensures LastValue(ExtendEnv(p, envs, r), "DOCKER_HOST_ADDRESS") ==
            if HasName(envs, "DOCKER_HOST_ADDRESS") then LastValue(envs, "DOCKER_HOST_ADDRESS")
            else Some(HostAddress(p, r).value)
  {
    hide Itoa, LastValue, PortOf;
    var host := if HasName(envs, "DOCKER_HOST_ADDRESS") then [] else [HostAddress(p, r)];
    var block := PortBlock(p, r);
    assert ExtendEnv(p, envs, r) == envs + host + block;
    LastValueAppend(envs + host, block, "DOCKER_HOST_ADDRESS");
    if host == [] {
      assert envs + host == envs;
    } else {
      LastValueInBlock(envs, host, "DOCKER_HOST_ADDRESS", 0);
    }
  }

  /** The list is extended for the two protocols the source knows, unless the user has a JVB_PORT. */
  lemma BlockWantedIff(p: Plan, envs: seq<EnvVar>, r: int)
    ensures ExtendEnv(p, envs, r) != envs <==>
            (p.spec.protocol == "TCP" || p.spec.protocol == "UDP")
            && forall i :: 0 <= i < |envs| ==> envs[i].name != "JVB_PORT"
    ensures ExtendEnv(p, envs, r) != envs <==> WantsBlock(p, envs)
  {
    hide HostAddress, Itoa, PortOf;
    if WantsBlock(p, envs) { assert |ExtendEnv(p, envs, r)| > |envs|; }
  }

  /**
   What a pod reads in a list with the block for `r`: the port of `r`, under four names beside
   a fixed JVB_PORT for TCP and as JVB_PORT for UDP; and the host address, unless the user gave one.
   */
  lemma BlockAnnounces(p: Plan, envs: seq<EnvVar>, r: int)
    requires ExtendEnv(p, envs, r) != envs
    ensures var all := ExtendEnv(p, envs, r);
            var port := Itoa(Wrap32((if p.spec.port != 0 then p.spec.port else 10000) + r));
            if p.spec.protocol == "TCP" then
              && LastValue(all, "JVB_PORT") == Some("30300")
              && LastValue(all, "JVB_TCP_PORT") == LastValue(all, "JVB_TCP_MAPPED_PORT") == Some(port)
              && LastValue(all, "TCP_HARVESTER_PORT") == LastValue(all, "TCP_HARVESTER_MAPPED_PORT") == Some(port)
            else LastValue(all, "JVB_PORT") == Some(port)
    ensures LastValue(ExtendEnv(p, envs, r), "DOCKER_HOST_ADDRESS") ==
            if HasName(envs, "DOCKER_HOST_ADDRESS") then LastValue(envs, "DOCKER_HOST_ADDRESS")
            else if p.spec.serviceType == "LoadBalancer" && Replica(r) in p.addresses then Some(p.addresses[Replica(r)])
            else Some("")
  {
    hide Itoa, LastValue, Wrap32, ExtendEnv, WantsBlock, HasName;
    BlockWantedIff(p, envs, r);
    BlockPorts(p, envs, r);
    BlockHost(p, envs, r);
  }

  /** Names the controller may add to a list. */
  const GENERATED := {"DOCKER_HOST_ADDRESS", "JVB_PORT", "JVB_TCP_PORT", "JVB_TCP_MAPPED_PORT",
                      "TCP_HARVESTER_PORT", "TCP_HARVESTER_MAPPED_PORT"}

  /** The user's entries stay in front, what is added are literals, and every other variable reads as before. */
  lemma BlockKeepsTheRest(p: Plan, envs: seq<EnvVar>, r: int, name: string)
    ensures var all := ExtendEnv(p, envs, r);
            && envs <= all
            && (forall i :: |envs| <= i < |all| ==> all[i].source == Literal && all[i].name in GENERATED)
            && (name !in GENERATED ==> LastValue(all, name) == LastValue(envs, name))
  {
    hide Itoa, LastValue, Wrap32;
    if WantsBlock(p, envs) {
      var extra := AddedVars(p, envs, r);
      assert forall i :: 0 <= i < |extra| ==> extra[i].source == Literal && extra[i].name in GENERATED;
      if name !in GENERATED { LastValueAppend(envs, extra, name); }
    }
  }

  /** The generated block never changes the logging level. */
  lemma LoggingUnaffected(p: Plan, envs: seq<EnvVar>, r: int)
    ensures LoggingConfig(ExtendEnv(p, envs, r)) == LoggingConfig(envs)
  {
    if WantsBlock(p, envs) {
      var block := AddedVars(p, envs, r);
      assert !HasName(block, "LOGGING_LEVEL");
      LastValueAppend(envs, block, "LOGGING_LEVEL");
    }
  }

  /** `env` is the list of the spec with the block for some replica of the plan. */
  ghost predicate EnvOf(p: Plan, env: seq<EnvVar>) {
    exists q :: 1 <= q <= p.spec.replicas && env == ExtendEnv(p, p.spec.environments, q)
  }

  ghost predicate EnvState(p: Plan, env: seq<EnvVar>) {
    env == p.spec.environments || EnvOf(p, env)
  }

  lemma EnvStateStep(p: Plan, envs: seq<EnvVar>, r: int)
    requires EnvState(p, envs) && 1 <= r <= p.spec.replicas
    ensures EnvOf(p, ExtendEnv(p, envs, r))
  {
    if envs != p.spec.environments {
      var q :| 1 <= q <= p.spec.replicas && envs == ExtendEnv(p, p.spec.environments, q);
      ExtendEnvOnce(p, p.spec.environments, q, r);
    }
  }

  lemma EnvStateLogging(p: Plan, envs: seq<EnvVar>)
    requires EnvState(p, envs)
    ensures LoggingConfig(envs) == LoggingConfig(p.spec.environments)
  {
    if envs != p.spec.environments {
      var q :| 1 <= q <= p.spec.replicas && envs == ExtendEnv(p, p.spec.environments, q);
      LoggingUnaffected(p, p.spec.environments, q);
    }
  }
}
