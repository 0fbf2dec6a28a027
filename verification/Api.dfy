/**
 The API server as the controller sees it: one request at a time, each of which may be
 struck by an injected fault. `World` is the whole observable state between two requests.
 */
module Api {
  import opened Basics
  import opened Naming
  import opened Resources

  datatype Err = Ok | NotFound | AlreadyExists | Conflict | Failed

  /**
   What happens to one request: nothing unusual; an optimistic-lock conflict (updates only);
   the request never arrives; or it takes effect and the reply is lost.
   */
  datatype Fault = Clean | Stale | Dropped | Lost

  /** A request that changes child objects. */
  datatype Call =
    | CreateDeployment(name: Name, deployment: Deployment)
    | UpdateDeployment(name: Name, deployment: Deployment)
    | DeleteDeployment(name: Name)
    | CreateService(name: Name, service: Service)
    | UpdateService(name: Name, service: Service)
    | DeleteService(name: Name)
    | CreateConfigMap(name: Name, configMap: ConfigMap)
    | UpdateConfigMap(name: Name, configMap: ConfigMap)
    | DeleteConfigMap(name: Name)
  {
    predicate IsUpdate() { UpdateDeployment? || UpdateService? || UpdateConfigMap? }
  }

  /** What the server answers when nothing goes wrong on the way. */
  function Verdict(s: Store, c: Call): Err {
    match c
    case CreateDeployment(n, _) => if n in s.deployments then AlreadyExists else Ok
    case UpdateDeployment(n, _) => if n in s.deployments then Ok else NotFound
    case DeleteDeployment(n) => if n in s.deployments then Ok else NotFound
    case CreateService(n, _) => if n in s.services then AlreadyExists else Ok
    case UpdateService(n, _) => if n in s.services then Ok else NotFound
    case DeleteService(n) => if n in s.services then Ok else NotFound
    case CreateConfigMap(n, _) => if n in s.configMaps then AlreadyExists else Ok
    case UpdateConfigMap(n, _) => if n in s.configMaps then Ok else NotFound
    case DeleteConfigMap(n) => if n in s.configMaps then Ok else NotFound
  }

  /** The store after a request has been served. */
  function Exec(s: Store, c: Call): Store {
    if Verdict(s, c) != Ok then s else
    match c
    case CreateDeployment(n, d) => s.(deployments := s.deployments[n := d])
    case UpdateDeployment(n, d) => s.(deployments := s.deployments[n := d])
    case DeleteDeployment(n) => s.(deployments := s.deployments - {n})
    case CreateService(n, v) => s.(services := s.services[n := v])
    case UpdateService(n, v) => s.(services := s.services[n := v])
    case DeleteService(n) => s.(services := s.services - {n})
    case CreateConfigMap(n, m) => s.(configMaps := s.configMaps[n := m])
    case UpdateConfigMap(n, m) => s.(configMaps := s.configMaps[n := m])
    case DeleteConfigMap(n) => s.(configMaps := s.configMaps - {n})
  }

  // ---- The JVB object ----

  const FINALIZER := "onmetal.de/meeting-operator"

  datatype JvbObject = JvbObject(
    spec: Spec,
    annotations: map<string, string>,
    status: int,
    finalizers: seq<string>,
    deleting: bool,
    version: nat)

  datatype Event = Updated(before: JvbObject, after: JvbObject) | Removed(last: JvbObject)

  /** Outcome of writing the JVB object: the stored object and the watch events the write causes. */
  datatype ObjectWrite = ObjectWrite(err: Err, obj: Option<JvbObject>, events: seq<Event>)

  /** A write that changes nothing neither raises the version nor causes an event. */
  function Stored(current: JvbObject, next: JvbObject): ObjectWrite {
    if next == current then ObjectWrite(Ok, Some(current), [])
    else if next.deleting && next.finalizers == [] then ObjectWrite(Ok, None, [Removed(current)])
    else var o := next.(version := current.version + 1);
         ObjectWrite(Ok, Some(o), [Updated(current, o)])
  }

  /** `Update`: everything but the status subresource, under optimistic locking. */
  function WriteObject(stored: Option<JvbObject>, sent: JvbObject): ObjectWrite {
    match stored
    case None => ObjectWrite(NotFound, None, [])
    case Some(o) =>
      if sent.version != o.version then ObjectWrite(Conflict, stored, [])
      else Stored(o, sent.(status := o.status, deleting := o.deleting))
  }

  /** `Status().Update`: the status subresource only. */
  function WriteStatus(stored: Option<JvbObject>, sent: JvbObject): ObjectWrite {
    match stored
    case None => ObjectWrite(NotFound, None, [])
    case Some(o) =>
      if sent.version != o.version then ObjectWrite(Conflict, stored, [])
      else Stored(o, o.(status := sent.status))
  }

  // ---- Requests under faults ----

  /** A served request together with the store it found. */
  datatype Step = Step(found: Store, call: Call)

  /** `faults` strike the coming requests in order; `steps` logs the requests that took effect. */
  datatype World = World(
    store: Store,
    obj: Option<JvbObject>,
    events: seq<Event>,
    faults: seq<Fault>,
    steps: seq<Step>)

  datatype Reply = Reply(err: Err, w: World)

  function NextFault(w: World): Fault {
    if w.faults == [] then Clean else w.faults[0]
  }

  function Spent(w: World): World {
    if w.faults == [] then w else w.(faults := w.faults[1..])
  }

  /** A read: `present` is whether the object is there. */
  function Look(w: World, present: bool): Reply {
    Reply(if NextFault(w) in {Dropped, Lost} then Failed else if present then Ok else NotFound, Spent(w))
  }

  function Served(w: World, c: Call): World {
    w.(store := Exec(w.store, c), steps := w.steps + [Step(w.store, c)])
  }

  function Mutate(w: World, c: Call): Reply {
    var v, s := Verdict(w.store, c), Spent(w);
    match NextFault(w)
    case Clean => Reply(v, Served(s, c))
    case Stale => if c.IsUpdate() && v == Ok then Reply(Conflict, s) else Reply(v, Served(s, c))
    case Dropped => Reply(Failed, s)
    case Lost => Reply(Failed, Served(s, c))
  }

  /** A request the server always turns down, such as an update of an object without a name. */
  function Refused(w: World): Reply {
    Reply(Failed, Spent(w))
  }

  function Landed(w: World, x: ObjectWrite): World {
    w.(obj := x.obj, events := w.events + x.events)
  }

  function Submit(w: World, x: ObjectWrite): Reply {
    match NextFault(w)
    case Clean => Reply(x.err, Landed(Spent(w), x))
    case Stale => Reply(if x.err == Ok then Conflict else x.err, Spent(w))
    case Dropped => Reply(Failed, Spent(w))
    case Lost => Reply(Failed, Landed(Spent(w), x))
  }

  function PutObject(w: World, sent: JvbObject): Reply {
    Submit(w, WriteObject(w.obj, sent))
  }

  function PutStatus(w: World, sent: JvbObject): Reply {
    Submit(w, WriteStatus(w.obj, sent))
  }

  // ---- Atomic states ----

  /** The store as it was when `k` of the logged requests had been served. */
  function StoreAt(w: World, k: nat): Store
    requires k <= |w.steps|
  {
    if k < |w.steps| then w.steps[k].found else w.store
  }

  function Fresh(s: Store, faults: seq<Fault>): World {
    World(s, None, [], faults, [])
  }
}
