/** The API server as an object: each request is served in place, or struck by the next fault. */
module Clusters {
  import opened Basics
  import opened Naming
  import opened Resources
  import opened Api
  import opened Program

  class Cluster {
    var deployments: map<Name, Deployment>
    var services: map<Name, Service>
    var configMaps: map<Name, ConfigMap>
    var jvb: Option<JvbObject>
    var events: seq<Event>
    var faults: seq<Fault>
    ghost var steps: seq<Step>

    ghost function State(): World
      reads this
    {
      World(Store(deployments, services, configMaps), jvb, events, faults, steps)
    }

    constructor (store: Store, obj: Option<JvbObject>, faults: seq<Fault>)
      ensures State() == World(store, obj, [], faults, [])
    {
      deployments, services, configMaps := store.deployments, store.services, store.configMaps;
      jvb, events := obj, [];
      this.faults := faults;
      steps := [];
    }

    method TakeFault() returns (f: Fault)
      modifies this`faults
      ensures f == NextFault(old(State())) && State() == Spent(old(State()))
    {
      if faults == [] { return Clean; }
      f := faults[0];
      faults := faults[1..];
    }

    method Look(present: bool) returns (err: Err)
      modifies this`faults
      ensures Reply(err, State()) == Api.Look(old(State()), present)
    {
      var f := TakeFault();
      if f == Dropped || f == Lost { return Failed; }
      return if present then Ok else NotFound;
    }

    method GetDeployment(n: Name) returns (err: Err, d: Option<Deployment>)
      modifies this`faults
      ensures Reply(err, State()) == Api.Look(old(State()), n in deployments)
      ensures err == Ok ==> n in deployments && d == Some(deployments[n])
    {
      err := Look(n in deployments);
      d := if err == Ok then Some(deployments[n]) else None;
    }

    method GetService(n: Name) returns (err: Err, v: Option<Service>)
      modifies this`faults
      ensures Reply(err, State()) == Api.Look(old(State()), n in services)
      ensures err == Ok ==> n in services && v == Some(services[n])
    {
      err := Look(n in services);
      v := if err == Ok then Some(services[n]) else None;
    }

    method GetJvb() returns (err: Err, o: Option<JvbObject>)
      modifies this`faults
      ensures Reply(err, State()) == Api.Look(old(State()), jvb.Some?)
      ensures err == Ok ==> jvb.Some? && o == jvb
    {
      err := Look(jvb.Some?);
      o := if err == Ok then jvb else None;
    }

    /** Every ConfigMap with the label `app=jvb`, each once. */
    method ListConfigMaps() returns (err: Err, names: seq<Name>)
      modifies this`faults
      ensures Reply(err, State()) == Api.Look(old(State()), true)
      ensures Lists(names, Store(deployments, services, configMaps))
    {
      err := Look(true);
      names := [];
      var rest := configMaps.Keys;
      while rest != {}
        invariant rest <= configMaps.Keys
        invariant forall n :: n in names <==> n in configMaps && n !in rest && configMaps[n].app == "jvb"
        invariant forall i, j :: 0 <= i < j < |names| ==> names[i] != names[j]
        decreases |rest|
      {
        var n :| n in rest;
        rest := rest - {n};
        if configMaps[n].app == "jvb" { names := names + [n]; }
      }
    }

    /** A served request: the collections change in place. */
    method Serve(c: Call)
      modifies this`deployments, this`services, this`configMaps, this`steps
      ensures State() == Served(old(State()), c)
    {
      ghost var found := Store(deployments, services, configMaps);
      match c {
        case CreateDeployment(n, d) => if n !in deployments { deployments := deployments[n := d]; }
        case UpdateDeployment(n, d) => if n in deployments { deployments := deployments[n := d]; }
        case DeleteDeployment(n) => if n in deployments { deployments := deployments - {n}; }
        case CreateService(n, v) => if n !in services { services := services[n := v]; }
        case UpdateService(n, v) => if n in services { services := services[n := v]; }
        case DeleteService(n) => if n in services { services := services - {n}; }
        case CreateConfigMap(n, m) => if n !in configMaps { configMaps := configMaps[n := m]; }
        case UpdateConfigMap(n, m) => if n in configMaps { configMaps := configMaps[n := m]; }
        case DeleteConfigMap(n) => if n in configMaps { configMaps := configMaps - {n}; }
      }
      steps := steps + [Step(found, c)];
    }

    method Request(c: Call) returns (err: Err)
      modifies this
      ensures Reply(err, State()) == Mutate(old(State()), c)
    {
      var verdict := Verdict(Store(deployments, services, configMaps), c);
      var fault := TakeFault();
      if fault == Dropped { return Failed; }
      if fault == Stale && c.IsUpdate() && verdict == Ok { return Conflict; }
      Serve(c);
      return if fault == Lost then Failed else verdict;
    }

    /** A request the server turns down whatever its state. */
    method Refuse() returns (err: Err)
      modifies this`faults
      ensures Reply(err, State()) == Refused(old(State()))
    {
      var fault := TakeFault();
      return Failed;
    }

    method Submit(x: ObjectWrite) returns (err: Err)
      modifies this`faults, this`jvb, this`events
      ensures Reply(err, State()) == Api.Submit(old(State()), x)
    {
      var fault := TakeFault();
      if fault == Clean || fault == Lost {
        jvb := x.obj;
        events := events + x.events;
      }
      match fault {
        case Clean => return x.err;
        case Stale => return if x.err == Ok then Conflict else x.err;
        case _ => return Failed;
      }
    }

    /** `Update` of the JVB object; on success the caller's copy becomes the stored one. */
    method UpdateJvb(sent: JvbObject) returns (err: Err, o: JvbObject)
      modifies this`faults, this`jvb, this`events
      ensures Reply(err, State()) == PutObject(old(State()), sent)
      ensures o == if err == Ok && jvb.Some? then jvb.value else sent
    {
      err := Submit(WriteObject(jvb, sent));
      o := if err == Ok && jvb.Some? then jvb.value else sent;
    }

    method UpdateJvbStatus(sent: JvbObject) returns (err: Err)
      modifies this`faults, this`jvb, this`events
      ensures Reply(err, State()) == PutStatus(old(State()), sent)
    {
      err := Submit(WriteStatus(jvb, sent));
    }
  }
}
