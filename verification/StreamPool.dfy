/** Process-wide reuse of stream handles, keyed by device ordinal, across device and context lifetimes. */
module StreamPool {
  import opened Prelude

  /** `releasing`: the destructor has emptied the pool entry and not yet released the context. */
  datatype Device = Device(ordinal: nat, owned: bool, releasing: bool)

  /** An owned stream object. */
  datatype Stream = Stream(handle: nat, device: nat)

  /** Which context a driver handle was created in. */
  datatype Origin = Primary(ordinal: nat, incarnation: nat) | Foreign(device: nat)

  /** A primary context: how often it is retained, and how often it has come into being. */
  datatype Context = Context(retains: nat, incarnation: nat)

  /** The process: its pool, devices and streams, and the driver's view of handles and contexts. `external` counts what
      other code retains. */
  datatype World = World(
    pool: map<nat, seq<nat>>, devices: map<nat, Device>, streams: map<nat, Stream>,
    alive: map<nat, Origin>, contexts: map<nat, Context>, external: map<nat, nat>)
  {
    function Pool(o: nat): seq<nat> { if o in pool then pool[o] else [] }
    function Ctx(o: nat): Context { if o in contexts then contexts[o] else Context(0, 0) }
    function Ext(o: nat): nat { if o in external then external[o] else 0 }
    function Retainers(o: nat): set<nat> { set d | d in devices && devices[d].owned && devices[d].ordinal == o }
  }

  function OriginOn(w: World, d: nat): Origin
    requires d in w.devices
  {
    if w.devices[d].owned then Primary(w.devices[d].ordinal, w.Ctx(w.devices[d].ordinal).incarnation) else Foreign(d)
  }

  // ---------------------------------------------------------------- invariant

  /** A device that can still hand out streams. */
  ghost predicate Usable(w: World, d: nat, o: nat) {
    d in w.devices && w.devices[d].owned && !w.devices[d].releasing && w.devices[d].ordinal == o
  }

  /** Pooled handles belong to the context their ordinal retains now, and a usable owned device keeps it. */
  ghost predicate PoolOk(w: World, o: nat) {
    && Distinct(w.Pool(o))
    && (w.Pool(o) != [] ==> exists d :: Usable(w, d, o))
    && forall h :: h in w.Pool(o) ==> h in w.alive && w.alive[h] == Primary(o, w.Ctx(o).incarnation)
  }

  /** A live owned stream has a live handle of its own device's context that nobody else has. */
  ghost predicate StreamOk(w: World, s: nat)
    requires s in w.streams
  {
    var h, d := w.streams[s].handle, w.streams[s].device;
    && d in w.devices && !w.devices[d].releasing
    && h in w.alive && w.alive[h] == OriginOn(w, d)
    && (forall t :: t in w.streams && t != s ==> w.streams[t].handle != h)
    && (w.devices[d].owned ==> h !in w.Pool(w.devices[d].ordinal))
  }

  /** The driver reclaims a primary context's handles with the context. */
  ghost predicate AliveOk(w: World) {
    forall h :: h in w.alive && w.alive[h].Primary? ==>
      var o := w.alive[h].ordinal;
      w.Ctx(o).retains > 0 && w.alive[h].incarnation == w.Ctx(o).incarnation
  }

  ghost predicate CountOk(w: World, o: nat) { w.Ctx(o).retains == |w.Retainers(o)| + w.Ext(o) }

  ghost predicate Inv(w: World) {
    && (forall o :: PoolOk(w, o))
    && (forall s :: s in w.streams ==> StreamOk(w, s))
    && (forall o :: CountOk(w, o))
    && (forall d :: d in w.devices && w.devices[d].releasing ==> w.devices[d].owned)
    && AliveOk(w)
  }

  // ---------------------------------------------------------------- what the invariant means

  /** A stream's handle is its own: no other stream and no pool entry has it, and a borrowed device's is foreign. */
  lemma HandlesHeldOnce(w: World, s: nat, o: nat)
    requires Inv(w) && s in w.streams
    ensures forall t :: t in w.streams && t != s ==> w.streams[t].handle != w.streams[s].handle
    ensures w.streams[s].handle in w.alive && w.streams[s].handle !in w.Pool(o)
    ensures w.devices[w.streams[s].device].owned <==> w.alive[w.streams[s].handle].Primary?
  {
    assert StreamOk(w, s);
    assert PoolOk(w, o);
  }

  lemma PooledHandlesAreCurrent(w: World, o: nat, h: nat, p: nat)
    requires Inv(w) && h in w.Pool(o)
    ensures h in w.alive && w.alive[h] == Primary(o, w.Ctx(o).incarnation) && w.Ctx(o).retains > 0
    ensures p != o ==> h !in w.Pool(p)
  {
    assert PoolOk(w, o) && PoolOk(w, p);
  }

  // ---------------------------------------------------------------- the driver

  function Retain(c: Context): Context {
    if c.retains == 0 then Context(1, c.incarnation + 1) else c.(retains := c.retains + 1)
  }

  /** Handles that outlive a release of ordinal `o`. */
  function AfterRelease(w: World, o: nat): map<nat, Origin> {
    if w.Ctx(o).retains <= 1 then map h | h in w.alive && !(w.alive[h].Primary? && w.alive[h].ordinal == o) :: w.alive[h]
    else w.alive
  }

  function Released(w: World, o: nat): World {
    w.(contexts := w.contexts[o := w.Ctx(o).(retains := if w.Ctx(o).retains > 0 then w.Ctx(o).retains - 1 else 0)],
       alive := AfterRelease(w, o))
  }

  // ---------------------------------------------------------------- steps

  datatype Action =
    | NewDevice(d: nat, o: nat)
    | Borrow(d: nat, o: nat)
    | DropDevice(d: nat)             // empties the pool entry; a borrowed device is gone at once
    | ReleaseContext(d: nat)         // the rest of an owned device's destructor
    | NewStream(s: nat, d: nat, issued: nat)
    | DropStream(s: nat)
    | ExternalRetain(o: nat)
    | ExternalRelease(o: nat)

  /** Streams keep their device alive, and the driver never issues a handle that is in use. */
  predicate Enabled(w: World, a: Action) {
    match a
    case NewDevice(d, _) => d !in w.devices
    case Borrow(d, _) => d !in w.devices
    case DropDevice(d) => d in w.devices && !w.devices[d].releasing && forall s :: s in w.streams ==> w.streams[s].device != d
    case ReleaseContext(d) => d in w.devices && w.devices[d].releasing
    case NewStream(s, d, issued) => s !in w.streams && d in w.devices && !w.devices[d].releasing && issued !in w.alive
    case DropStream(s) => s in w.streams && w.streams[s].device in w.devices
    case ExternalRetain(_) => true
    case ExternalRelease(o) => w.Ext(o) > 0
  }

  function Apply(w: World, a: Action): World
    requires Enabled(w, a)
  {
    match a
    case NewDevice(d, o) =>
      w.(devices := w.devices[d := Device(o, true, false)], contexts := w.contexts[o := Retain(w.Ctx(o))])
    case Borrow(d, o) => w.(devices := w.devices[d := Device(o, false, false)])
    case DropDevice(d) =>
      if w.devices[d].owned
      then w.(pool := w.pool - {w.devices[d].ordinal}, devices := w.devices[d := w.devices[d].(releasing := true)])
      else w.(devices := w.devices - {d})
    case ReleaseContext(d) => Released(w.(devices := w.devices - {d}), w.devices[d].ordinal)
    case NewStream(s, d, issued) =>
      var o := w.devices[d].ordinal;
      if w.devices[d].owned && w.Pool(o) != [] then
        var p := w.Pool(o);
        w.(pool := w.pool[o := p[..|p| - 1]], streams := w.streams[s := Stream(p[|p| - 1], d)])
      else
        w.(alive := w.alive[issued := OriginOn(w, d)], streams := w.streams[s := Stream(issued, d)])
    case DropStream(s) =>
      var h, d := w.streams[s].handle, w.streams[s].device;
      var o := w.devices[d].ordinal;
      if w.devices[d].owned then w.(streams := w.streams - {s}, pool := w.pool[o := w.Pool(o) + [h]])
      else w.(streams := w.streams - {s}, alive := w.alive - {h})
    case ExternalRetain(o) => w.(contexts := w.contexts[o := Retain(w.Ctx(o))], external := w.external[o := w.Ext(o) + 1])
    case ExternalRelease(o) => Released(w.(external := w.external[o := w.Ext(o) - 1]), o)
  }

  lemma Facts(w: World, o: nat)
    requires Inv(w)
    ensures PoolOk(w, o) && CountOk(w, o)
    ensures w.Pool(o) != [] ==> w.Ctx(o).retains > 0
  {
    if w.Pool(o) != [] { NeedsRetain(w, o); }
  }

  lemma StreamFacts(w: World, s: nat)
    requires Inv(w) && s in w.streams
    ensures StreamOk(w, s)
    ensures w.devices[w.streams[s].device].owned ==> w.Ctx(w.devices[w.streams[s].device].ordinal).retains > 0
  {
    if w.devices[w.streams[s].device].owned { RetainedBy(w, w.streams[s].device); }
  }

  lemma RetainersAdd(w: World, v: World, d: nat, o: nat, p: nat)
    requires d !in w.devices && v.devices == w.devices[d := Device(o, true, false)]
    ensures |v.Retainers(p)| == |w.Retainers(p)| + if p == o then 1 else 0
  {
    if p == o {
      assert v.Retainers(p) == w.Retainers(p) + {d} && d !in w.Retainers(p);
    } else {
      assert v.Retainers(p) == w.Retainers(p);
    }
  }

  lemma NewDeviceCount(w: World, d: nat, o: nat, p: nat)
    requires CountOk(w, p) && d !in w.devices
    ensures CountOk(Apply(w, NewDevice(d, o)), p)
  {
    RetainersAdd(w, Apply(w, NewDevice(d, o)), d, o, p);
  }

  lemma NewDevicePool(w: World, d: nat, o: nat, p: nat)
    requires PoolOk(w, p) && d !in w.devices && (w.Pool(p) != [] ==> w.Ctx(p).retains > 0)
    ensures PoolOk(Apply(w, NewDevice(d, o)), p)
  {
    KeepsUsable(w, Apply(w, NewDevice(d, o)), p);
  }

  lemma NewDeviceKeeps(w: World, d: nat, o: nat, s: nat)
    requires Inv(w) && d !in w.devices && s in w.streams
    ensures StreamOk(Apply(w, NewDevice(d, o)), s)
  {
    StreamFacts(w, s);
    hide Inv;
  }

  lemma NewDeviceInv(w: World, d: nat, o: nat)
    requires Inv(w) && d !in w.devices
    ensures Inv(Apply(w, NewDevice(d, o)))
  {
    var v := Apply(w, NewDevice(d, o));
    assert AliveOk(v);
    hide AliveOk, PoolOk, StreamOk, CountOk;
    forall p ensures CountOk(v, p) && PoolOk(v, p) {
      Facts(w, p);
      NewDeviceCount(w, d, o, p);
      NewDevicePool(w, d, o, p);
    }
    forall s | s in v.streams ensures StreamOk(v, s) { NewDeviceKeeps(w, d, o, s); }
  }

  lemma KeepsUsable(w: World, v: World, o: nat)
    requires forall d :: Usable(w, d, o) ==> Usable(v, d, o)
    ensures (exists d :: Usable(w, d, o)) ==> exists d :: Usable(v, d, o)
  {
    if d :| Usable(w, d, o) { assert Usable(v, d, o); }
  }

  /** An owned device means a retained context. */
  lemma RetainedBy(w: World, d: nat)
    requires Inv(w) && d in w.devices && w.devices[d].owned
    ensures w.Ctx(w.devices[d].ordinal).retains > 0
  {
    var o := w.devices[d].ordinal;
    assert CountOk(w, o) && d in w.Retainers(o);
  }

  lemma NeedsRetain(w: World, o: nat)
    requires Inv(w) && w.Pool(o) != []
    ensures w.Ctx(o).retains > 0
  {
    assert PoolOk(w, o);
    var d :| Usable(w, d, o);
    RetainedBy(w, d);
  }

  lemma BorrowInv(w: World, d: nat, o: nat)
    requires Inv(w) && d !in w.devices
    ensures Inv(Apply(w, Borrow(d, o)))
  {
    var v := Apply(w, Borrow(d, o));
    forall p ensures CountOk(v, p) && PoolOk(v, p) {
      assert CountOk(w, p) && PoolOk(w, p);
      assert v.Retainers(p) == w.Retainers(p);
      KeepsUsable(w, v, p);
    }
    forall s | s in v.streams ensures StreamOk(v, s) { assert StreamOk(w, s); }
  }

  lemma DropDeviceCount(w: World, d: nat, p: nat)
    requires CountOk(w, p) && Enabled(w, DropDevice(d))
    ensures CountOk(Apply(w, DropDevice(d)), p)
  {
    var v := Apply(w, DropDevice(d));
    assert v.Retainers(p) == w.Retainers(p);
  }

  lemma DropDevicePool(w: World, d: nat, p: nat)
    requires PoolOk(w, p) && Enabled(w, DropDevice(d))
    ensures PoolOk(Apply(w, DropDevice(d)), p)
  {
    var v := Apply(w, DropDevice(d));
    if v.Pool(p) != [] { KeepsUsable(w, v, p); }
  }

  lemma DropDeviceKeeps(w: World, d: nat, s: nat)
    requires Inv(w) && Enabled(w, DropDevice(d)) && s in w.streams
    ensures StreamOk(Apply(w, DropDevice(d)), s)
  {
    StreamFacts(w, s);
    hide Inv;
  }

  lemma DropDeviceInv(w: World, d: nat)
    requires Inv(w) && Enabled(w, DropDevice(d))
    ensures Inv(Apply(w, DropDevice(d)))
  {
    var v := Apply(w, DropDevice(d));
    hide PoolOk, StreamOk, CountOk;
    forall s | s in v.streams ensures StreamOk(v, s) { DropDeviceKeeps(w, d, s); }
    forall p ensures CountOk(v, p) && PoolOk(v, p) {
      Facts(w, p);
      DropDeviceCount(w, d, p);
      DropDevicePool(w, d, p);
    }
  }

  /** Releasing one retain when the count says nobody owned is left drops only handles nobody has. */
  lemma ReleasedInv(w: World, o: nat)
    requires forall p :: PoolOk(w, p)
    requires forall s :: s in w.streams ==> StreamOk(w, s)
    requires forall p :: p != o ==> CountOk(w, p)
    requires w.Ctx(o).retains == |w.Retainers(o)| + w.Ext(o) + 1
    requires forall d :: d in w.devices && w.devices[d].releasing ==> w.devices[d].owned
    requires AliveOk(w)
    ensures Inv(Released(w, o))
  {
    var v := Released(w, o);
    assert v.Retainers(o) == w.Retainers(o);
    if w.Ctx(o).retains == 1 {
      assert w.Retainers(o) == {};
      assert forall d :: !Usable(w, d, o) by { forall d ensures !Usable(w, d, o) { assert d !in w.Retainers(o); } }
      assert PoolOk(w, o);
      assert w.Pool(o) == [];
    }
    forall p ensures CountOk(v, p) && PoolOk(v, p) {
      assert PoolOk(w, p) && (p != o ==> CountOk(w, p));
      assert v.Retainers(p) == w.Retainers(p);
      KeepsUsable(w, v, p);
    }
    forall s | s in v.streams ensures StreamOk(v, s) {
      assert StreamOk(w, s);
      var d := w.streams[s].device;
      assert w.devices[d].owned && w.devices[d].ordinal == o ==> d in w.Retainers(o);
    }
  }

  lemma ReleaseContextInv(w: World, d: nat)
    requires Inv(w) && Enabled(w, ReleaseContext(d))
    ensures Inv(Apply(w, ReleaseContext(d)))
  {
    var o := w.devices[d].ordinal;
    var u := w.(devices := w.devices - {d});
    assert CountOk(w, o) && d in w.Retainers(o);
    assert u.Retainers(o) == w.Retainers(o) - {d};
    forall p ensures PoolOk(u, p) && (p != o ==> CountOk(u, p)) {
      assert PoolOk(w, p) && CountOk(w, p);
      assert p != o ==> u.Retainers(p) == w.Retainers(p);
      KeepsUsable(w, u, p);
    }
    forall s | s in u.streams ensures StreamOk(u, s) { assert StreamOk(w, s); }
    ReleasedInv(u, o);
  }

  lemma ExternalReleaseInv(w: World, o: nat)
    requires Inv(w) && Enabled(w, ExternalRelease(o))
    ensures Inv(Apply(w, ExternalRelease(o)))
  {
    var u := w.(external := w.external[o := w.Ext(o) - 1]);
    assert CountOk(w, o) && u.Retainers(o) == w.Retainers(o);
    forall p ensures PoolOk(u, p) && (p != o ==> CountOk(u, p)) {
      assert PoolOk(w, p) && CountOk(w, p) && u.Retainers(p) == w.Retainers(p);
      KeepsUsable(w, u, p);
    }
    forall s | s in u.streams ensures StreamOk(u, s) { assert StreamOk(w, s); }
    ReleasedInv(u, o);
  }

  lemma ExternalRetainInv(w: World, o: nat)
    requires Inv(w)
    ensures Inv(Apply(w, ExternalRetain(o)))
  {
    var v := Apply(w, ExternalRetain(o));
    forall p ensures CountOk(v, p) && PoolOk(v, p) {
      assert CountOk(w, p) && PoolOk(w, p);
      assert v.Retainers(p) == w.Retainers(p);
      KeepsUsable(w, v, p);
      if w.Pool(p) != [] { NeedsRetain(w, p); }
    }
    forall s | s in v.streams ensures StreamOk(v, s) {
      assert StreamOk(w, s);
      if w.devices[w.streams[s].device].owned { RetainedBy(w, w.streams[s].device); }
    }
  }

  /** Taking the newest pooled handle. */
  lemma PopInv(w: World, s: nat, d: nat)
    requires Inv(w) && s !in w.streams && d in w.devices && !w.devices[d].releasing && w.devices[d].owned
    requires w.Pool(w.devices[d].ordinal) != []
    ensures var o := w.devices[d].ordinal;
            var p := w.Pool(o);
            Inv(w.(pool := w.pool[o := p[..|p| - 1]], streams := w.streams[s := Stream(p[|p| - 1], d)]))
  {
    var o := w.devices[d].ordinal;
    var p := w.Pool(o);
    var v := w.(pool := w.pool[o := p[..|p| - 1]], streams := w.streams[s := Stream(p[|p| - 1], d)]);
    assert PoolOk(w, o);
    PopLast(p);
    forall q ensures CountOk(v, q) && PoolOk(v, q) {
      Facts(w, q);
      assert v.Retainers(q) == w.Retainers(q);
      KeepsUsable(w, v, q);
    }
    forall t | t in w.streams ensures StreamOk(v, t) && w.streams[t].handle != p[|p| - 1] {
      StreamFacts(w, t);
    }
  }

  /** Creating a handle. */
  lemma CreateInv(w: World, s: nat, d: nat, issued: nat)
    requires Inv(w) && s !in w.streams && d in w.devices && !w.devices[d].releasing && issued !in w.alive
    ensures Inv(w.(alive := w.alive[issued := OriginOn(w, d)], streams := w.streams[s := Stream(issued, d)]))
  {
    var v := w.(alive := w.alive[issued := OriginOn(w, d)], streams := w.streams[s := Stream(issued, d)]);
    if w.devices[d].owned { RetainedBy(w, d); }
    forall q ensures CountOk(v, q) && PoolOk(v, q) && issued !in w.Pool(q) {
      Facts(w, q);
      assert v.Retainers(q) == w.Retainers(q);
      KeepsUsable(w, v, q);
    }
    forall t | t in w.streams ensures StreamOk(v, t) && w.streams[t].handle != issued {
      StreamFacts(w, t);
    }
    assert issued !in w.Pool(w.devices[d].ordinal) && v.Pool(w.devices[d].ordinal) == w.Pool(w.devices[d].ordinal);
    assert StreamOk(v, s);
  }

  lemma NewStreamInv(w: World, a: Action)
    requires Inv(w) && a.NewStream? && Enabled(w, a)
    ensures Inv(Apply(w, a))
  {
    hide Inv;
    if w.devices[a.d].owned && w.Pool(w.devices[a.d].ordinal) != [] {
      PopInv(w, a.s, a.d);
    } else {
      CreateInv(w, a.s, a.d, a.issued);
    }
  }

  /** Parking the handle of a dropped stream. */
  lemma ParkInv(w: World, s: nat)
    requires Inv(w) && Enabled(w, DropStream(s)) && w.devices[w.streams[s].device].owned
    ensures Inv(Apply(w, DropStream(s)))
  {
    var v := Apply(w, DropStream(s));
    var h, d := w.streams[s].handle, w.streams[s].device;
    var o := w.devices[d].ordinal;
    StreamFacts(w, s);
    Facts(w, o);
    PushNew(w.Pool(o), h);
    assert Usable(v, d, o);
    forall p ensures CountOk(v, p) && PoolOk(v, p) {
      Facts(w, p);
      assert v.Retainers(p) == w.Retainers(p);
      if p != o { KeepsUsable(w, v, p); }
    }
    forall t | t in v.streams ensures StreamOk(v, t) { StreamFacts(w, t); }
  }

  /** Destroying it, on a borrowed device. */
  lemma DestroyInv(w: World, s: nat)
    requires Inv(w) && Enabled(w, DropStream(s)) && !w.devices[w.streams[s].device].owned
    ensures Inv(Apply(w, DropStream(s)))
  {
    var v := Apply(w, DropStream(s));
    StreamFacts(w, s);
    forall p ensures CountOk(v, p) && PoolOk(v, p) {
      Facts(w, p);
      assert v.Retainers(p) == w.Retainers(p);
      KeepsUsable(w, v, p);
    }
    forall t | t in v.streams ensures StreamOk(v, t) { StreamFacts(w, t); }
  }

  lemma DropStreamInv(w: World, s: nat)
    requires Inv(w) && Enabled(w, DropStream(s))
    ensures Inv(Apply(w, DropStream(s)))
  {
    hide Inv, Apply;
    if w.devices[w.streams[s].device].owned { ParkInv(w, s); } else { DestroyInv(w, s); }
  }

  lemma StepInv(w: World, a: Action)
    requires Inv(w) && Enabled(w, a)
    ensures Inv(Apply(w, a))
  {
    hide Inv, Apply;
    match a {
      case NewDevice(d, o) => NewDeviceInv(w, d, o);
      case Borrow(d, o) => BorrowInv(w, d, o);
      case DropDevice(d) => DropDeviceInv(w, d);
      case ReleaseContext(d) => ReleaseContextInv(w, d);
      case NewStream(_, _, _) => NewStreamInv(w, a);
      case DropStream(s) => DropStreamInv(w, s);
      case ExternalRetain(o) => ExternalRetainInv(w, o);
      case ExternalRelease(o) => ExternalReleaseInv(w, o);
    }
  }

  ghost predicate Path(w: World, run: seq<Action>, v: World)
    decreases |run|
  {
    if run == [] then w == v else Enabled(w, run[0]) && Path(Apply(w, run[0]), run[1..], v)
  }

  const START: World := World(map[], map[], map[], map[], map[], map[])

  /** Over every run of creations, drops and context releases. */
  lemma {:induction false} PathInv(w: World, run: seq<Action>, v: World)
    requires Inv(w) && Path(w, run, v)
    ensures Inv(v)
    decreases |run|
  {
    hide Apply, Enabled, Inv;
    if run != [] {
      StepInv(w, run[0]);
      PathInv(Apply(w, run[0]), run[1..], v);
    }
  }

  lemma StartInv()
    ensures Inv(START)
  {
    assert forall o :: START.Retainers(o) == {};
  }

  /** In every reachable process state handles are unshared, pooled handles are of the context retained now, and a borrowed
      device's handle is neither. */
  lemma PoolSafe(run: seq<Action>, w: World, s: nat, o: nat)
    requires Path(START, run, w)
    ensures forall h :: h in w.Pool(o) ==>
              h in w.alive && w.alive[h] == Primary(o, w.Ctx(o).incarnation) && w.Ctx(o).retains > 0
    ensures s in w.streams ==>
              && w.streams[s].device in w.devices
              && w.streams[s].handle in w.alive && w.streams[s].handle !in w.Pool(o)
              && (w.devices[w.streams[s].device].owned <==> w.alive[w.streams[s].handle].Primary?)
              && forall t :: t in w.streams && t != s ==> w.streams[t].handle != w.streams[s].handle
  {
    StartInv();
    PathInv(START, run, w);
    Facts(w, o);
    if s in w.streams {
      StreamFacts(w, s);
      HandlesHeldOnce(w, s, o);
    }
  }

  /** Handles of ordinal `o`'s context that neither a stream nor the pool holds any more. */
  ghost function Orphans(w: World, o: nat): set<nat> {
    set h | h in w.alive && w.alive[h].Primary? && w.alive[h].ordinal == o && h !in w.Pool(o)
            && forall s :: s in w.streams ==> w.streams[s].handle != h
  }

  /** Every drop of an owned device, not only the last, gives up exactly the handles pooled for its ordinal. */
  lemma DropOrphansPool(w: World, d: nat)
    requires Inv(w) && Enabled(w, DropDevice(d)) && w.devices[d].owned
    ensures var o := w.devices[d].ordinal;
            Orphans(Apply(w, DropDevice(d)), o) == Orphans(w, o) + set h | h in w.Pool(o)
  {
    var o := w.devices[d].ordinal;
    Facts(w, o);
    forall s | s in w.streams ensures w.streams[s].handle !in w.Pool(o) { StreamFacts(w, s); }
  }

  /** The release that ends the context reclaims every handle of it. */
  lemma LastReleaseReclaims(w: World, d: nat)
    requires Inv(w) && Enabled(w, ReleaseContext(d)) && w.Ctx(w.devices[d].ordinal).retains == 1
    ensures var o := w.devices[d].ordinal;
            var v := Apply(w, ReleaseContext(d));
            Orphans(v, o) == {} && v.Pool(o) == []
            && forall h :: h in v.alive ==> v.alive[h].Foreign? || v.alive[h].ordinal != o
  {
    var o := w.devices[d].ordinal;
    Facts(w, o);
    var r := w.Retainers(o);
    assert d in r && |r - {d}| == |r| - 1 == 0;
    forall e ensures !Usable(w, e, o) {
      assert e in r ==> e == d || e in r - {d};
    }
  }

  /** What `o`'s pool entry gains or loses when an owned device drops: everything, so it is kept only if it was empty. */
  lemma DropKeepsPoolIff(w: World, d: nat)
    requires Enabled(w, DropDevice(d)) && w.devices[d].owned
    ensures var o := w.devices[d].ordinal;
            Apply(w, DropDevice(d)).Pool(o) == w.Pool(o) <==> w.Pool(o) == []
  {
  }

  /** A release that is not the last takes no handle. */
  lemma EarlyReleaseKeeps(w: World, d: nat)
    requires Enabled(w, ReleaseContext(d)) && w.Ctx(w.devices[d].ordinal).retains > 1
    ensures Orphans(Apply(w, ReleaseContext(d)), w.devices[d].ordinal) == Orphans(w, w.devices[d].ordinal)
  {
  }

  /** A whole device drop leaves handles nobody holds exactly when something else still retains the context and there were
      such handles, or pooled ones, before. */
  lemma OrphansAfterDeviceIff(w: World, d: nat)
    requires Inv(w) && Enabled(w, DropDevice(d)) && w.devices[d].owned
    ensures var o := w.devices[d].ordinal;
            var v := Apply(Apply(w, DropDevice(d)), ReleaseContext(d));
            Orphans(v, o) != {} <==> w.Ctx(o).retains > 1 && (Orphans(w, o) != {} || w.Pool(o) != [])
  {
    var o, u := w.devices[d].ordinal, Apply(w, DropDevice(d));
    DropOrphansPool(w, d);
    DropDeviceInv(w, d);
    RetainedBy(w, d);
    assert u.Ctx(o) == w.Ctx(o);
    if w.Pool(o) != [] { assert w.Pool(o)[0] in Orphans(u, o); }
    if w.Ctx(o).retains == 1 { LastReleaseReclaims(u, d); } else { EarlyReleaseKeeps(u, d); }
  }

  /** The documentation's reading fails: a first device's drop gives up a handle a second device could have reused. */
  lemma EarlyDiscard(run: seq<Action>)
    requires run == [NewDevice(0, 0), NewDevice(1, 0), NewStream(7, 0, 5), DropStream(7), DropDevice(0)]
    ensures exists w :: Path(START, run, w) && 5 in Orphans(w, 0) && Usable(w, 1, 0) && w.Ctx(0).retains == 2
  {
    var a := Device(0, true, false);
    var c := map[0 := Context(2, 1)];
    var w1 := World(map[], map[0 := a], map[], map[], map[0 := Context(1, 1)], map[]);
    var w2 := World(map[], map[0 := a, 1 := a], map[], map[], c, map[]);
    var w3 := w2.(streams := map[7 := Stream(5, 0)], alive := map[5 := Primary(0, 1)]);
    var w4 := w3.(streams := map[], pool := map[0 := [5]]);
    var w5 := w4.(pool := map[], devices := map[0 := a.(releasing := true), 1 := a]);
    assert Apply(START, run[0]) == w1;
    assert Apply(w1, run[1]) == w2;
    assert Apply(w2, run[2]) == w3;
    assert Apply(w3, run[3]) == w4 by { assert w3.streams - {7} == map[] && w3.Pool(0) + [5] == [5]; }
    assert Apply(w4, run[4]) == w5;
    PathOfFive(run, w1, w2, w3, w4, w5);
    hide Path, Apply;
    assert Usable(w5, 1, 0) && 5 in Orphans(w5, 0);
  }

  lemma PathOfFive(run: seq<Action>, w1: World, w2: World, w3: World, w4: World, w5: World)
    requires |run| == 5 && Enabled(START, run[0]) && Apply(START, run[0]) == w1
    requires Enabled(w1, run[1]) && Apply(w1, run[1]) == w2 && Enabled(w2, run[2]) && Apply(w2, run[2]) == w3
    requires Enabled(w3, run[3]) && Apply(w3, run[3]) == w4 && Enabled(w4, run[4]) && Apply(w4, run[4]) == w5
    ensures Path(START, run, w5)
  {
    hide Apply, Enabled;
    assert run[1..][1..] == run[2..] && run[2..][1..] == run[3..] && run[3..][1..] == run[4..] && run[4..][1..] == [];
    assert Path(w4, run[4..], w5);
    assert Path(w3, run[3..], w5);
    assert Path(w2, run[2..], w5);
    assert Path(w1, run[1..], w5);
  }

  lemma ParkStep(w: World, s: nat)
    requires Enabled(w, DropStream(s)) && w.devices[w.streams[s].device].owned
    ensures var o := w.devices[w.streams[s].device].ordinal;
            Apply(w, DropStream(s)) == w.(streams := w.streams - {s}, pool := w.pool[o := w.Pool(o) + [w.streams[s].handle]])
  {
  }

  lemma ReuseStep(w: World, t: nat, d: nat, issued: nat, p: seq<nat>, h: nat)
    requires Enabled(w, NewStream(t, d, issued)) && w.devices[d].owned && w.Pool(w.devices[d].ordinal) == p + [h]
    ensures Apply(w, NewStream(t, d, issued))
         == w.(pool := w.pool[w.devices[d].ordinal := p], streams := w.streams[t := Stream(h, d)])
  {
    assert (p + [h])[..|p|] == p;
  }

  /** A stream parked by one owned device is what the next stream on any owned device of the ordinal gets, and nothing is
      created. */
  lemma ParkedThenReused(w: World, s: nat, t: nat, d: nat, issued: nat)
    requires Enabled(w, DropStream(s)) && w.devices[w.streams[s].device].owned
    requires Enabled(Apply(w, DropStream(s)), NewStream(t, d, issued))
    requires w.devices[d].owned && w.devices[d].ordinal == w.devices[w.streams[s].device].ordinal
    ensures var v := Apply(Apply(w, DropStream(s)), NewStream(t, d, issued));
            && v.streams == (w.streams - {s})[t := Stream(w.streams[s].handle, d)]
            && v.alive == w.alive && forall o :: v.Pool(o) == w.Pool(o)
  {
    ParkStep(w, s);
    var u := Apply(w, DropStream(s));
    ReuseStep(u, t, d, issued, w.Pool(w.devices[d].ordinal), w.streams[s].handle);
    hide Apply;
  }

  /** A new stream takes the handle parked last, or a fresh one if there is none or the device is borrowed. */
  lemma NewStreamStep(w: World, s: nat, d: nat, issued: nat)
    requires Enabled(w, NewStream(s, d, issued))
    ensures var v, dev, o := Apply(w, NewStream(s, d, issued)), w.devices[d], w.devices[d].ordinal;
            if dev.owned && o in w.pool && w.pool[o] != [] then
              v == w.(pool := w.pool[o := w.pool[o][..|w.pool[o]| - 1]],
                      streams := w.streams[s := Stream(w.pool[o][|w.pool[o]| - 1], d)])
            else
              v == w.(alive := w.alive[issued := if dev.owned then Primary(o, w.Ctx(o).incarnation) else Foreign(d)],
                      streams := w.streams[s := Stream(issued, d)])
  {
  }

  // ---------------------------------------------------------------- the code

  /** The process-wide state the constructors and destructors update. */
  class Runtime {
    var pool: map<nat, seq<nat>>
    var devices: map<nat, Device>
    var streams: map<nat, Stream>
    var alive: map<nat, Origin>
    var contexts: map<nat, Context>
    var external: map<nat, nat>

    function W(): World
      reads this
    {
      World(pool, devices, streams, alive, contexts, external)
    }

    constructor ()
      ensures W() == START && Inv(W())
    {
      pool, devices, streams, alive, contexts, external := map[], map[], map[], map[], map[], map[];
      StartInv();
    }

    /** A pooled handle for an owned device, a fresh one otherwise; a borrowed device never looks at the pool. */
    method NewDeviceStream(s: nat, d: nat, issued: nat) returns (handle: nat)
      requires Inv(W()) && Enabled(W(), NewStream(s, d, issued))
      modifies this
      ensures W() == Apply(old(W()), NewStream(s, d, issued)) && Inv(W())
      ensures s in streams && streams[s] == Stream(handle, d)
      ensures var dev, o := old(devices)[d], old(devices)[d].ordinal;
              if dev.owned && o in old(pool) && old(pool)[o] != [] then
                && handle == old(pool)[o][|old(pool)[o]| - 1] && alive == old(alive)
                && pool == old(pool)[o := old(pool)[o][..|old(pool)[o]| - 1]]
              else
                && handle == issued && pool == old(pool)
                && alive == old(alive)[issued := if dev.owned then Primary(o, W().Ctx(o).incarnation) else Foreign(d)]
      ensures streams == old(streams)[s := Stream(handle, d)] && devices == old(devices) && contexts == old(contexts)
      ensures handle !in W().Pool(devices[d].ordinal)
    {
      StepInv(W(), NewStream(s, d, issued));
      NewStreamStep(W(), s, d, issued);
      hide Inv, Apply;
      var dev := devices[d];
      if dev.owned && dev.ordinal in pool && pool[dev.ordinal] != [] {
        var parked := pool[dev.ordinal];
        handle := parked[|parked| - 1];
        pool := pool[dev.ordinal := parked[..|parked| - 1]];
      } else {
        handle := issued;
        alive := alive[issued := if dev.owned then Primary(dev.ordinal, W().Ctx(dev.ordinal).incarnation) else Foreign(d)];
      }
      streams := streams[s := Stream(handle, d)];
      HandlesHeldOnce(W(), s, dev.ordinal);
    }

    /** Drains the stream, then parks its handle (owned device) or destroys it (borrowed device). */
    method DropOwnedStream(s: nat)
      requires Inv(W()) && Enabled(W(), DropStream(s))
      modifies this
      ensures W() == Apply(old(W()), DropStream(s)) && Inv(W()) && s !in streams
      ensures var h, dev := old(streams)[s].handle, devices[old(streams)[s].device];
              if dev.owned then
                && alive == old(alive) && dev.ordinal in pool
                && pool == old(pool)[dev.ordinal := pool[dev.ordinal]]
                && pool[dev.ordinal] == (if dev.ordinal in old(pool) then old(pool)[dev.ordinal] else []) + [h]
              else pool == old(pool) && alive == old(alive) - {h}
      ensures streams == old(streams) - {s} && devices == old(devices) && contexts == old(contexts)
    {
      hide Inv;
      StepInv(W(), DropStream(s));
      var stream := streams[s];
      var dev := devices[stream.device];
      if dev.owned {
        if dev.ordinal !in pool {
          pool := pool[dev.ordinal := []];
        }
        pool := pool[dev.ordinal := pool[dev.ordinal] + [stream.handle]];
      } else {
        alive := alive - {stream.handle};
      }
      streams := streams - {s};
      assert W().pool == Apply(old(W()), DropStream(s)).pool;
    }

    /** Retains the ordinal's primary context for a new owned device. */
    method NewOwnedDevice(d: nat, o: nat)
      requires Inv(W()) && Enabled(W(), NewDevice(d, o))
      modifies this
      ensures W() == Apply(old(W()), NewDevice(d, o)) && Inv(W())
      ensures devices == old(devices)[d := Device(o, true, false)] && pool == old(pool) && streams == old(streams)
      ensures alive == old(alive) && o in contexts && contexts == old(contexts)[o := contexts[o]]
      ensures contexts[o].retains == old(W()).Ctx(o).retains + 1
      ensures contexts[o].incarnation == old(W()).Ctx(o).incarnation + if old(W()).Ctx(o).retains == 0 then 1 else 0
    {
      hide Inv;
      StepInv(W(), NewDevice(d, o));
      contexts := contexts[o := Retain(W().Ctx(o))];
      devices := devices[d := Device(o, true, false)];
    }

    /** The first half of a device's destructor: discard the ordinal's pooled handles. */
    method DiscardPool(d: nat)
      requires Inv(W()) && Enabled(W(), DropDevice(d))
      modifies this
      ensures W() == Apply(old(W()), DropDevice(d)) && Inv(W())
      ensures alive == old(alive) && streams == old(streams) && contexts == old(contexts)
      ensures var dev := old(devices)[d];
              if dev.owned then
                pool == old(pool) - {dev.ordinal} && devices == old(devices)[d := Device(dev.ordinal, true, true)]
              else pool == old(pool) && devices == old(devices) - {d}
    {
      hide Inv;
      StepInv(W(), DropDevice(d));
      var dev := devices[d];
      if !dev.owned {
        devices := devices - {d};
        return;
      }
      pool := pool - {dev.ordinal};
      devices := devices[d := dev.(releasing := true)];
    }

    /** The second half: give up the context; the driver reclaims its handles with the last retain. */
    method Release(d: nat)
      requires Inv(W()) && Enabled(W(), ReleaseContext(d))
      modifies this
      ensures W() == Apply(old(W()), ReleaseContext(d)) && Inv(W())
      ensures devices == old(devices) - {d} && pool == old(pool) && streams == old(streams)
      ensures var o := old(devices)[d].ordinal;
              && old(W()).Ctx(o).retains > 0
              && contexts == old(contexts)[o := Context(old(W()).Ctx(o).retains - 1, old(W()).Ctx(o).incarnation)]
              && alive.Keys == (set h | h in old(alive) && !(old(W()).Ctx(o).retains == 1 && old(alive)[h].Primary?
                                                             && old(alive)[h].ordinal == o))
              && forall h :: h in alive ==> alive[h] == old(alive)[h]
    {
      RetainedBy(W(), d);
      hide Inv;
      StepInv(W(), ReleaseContext(d));
      var o := devices[d].ordinal;
      devices := devices - {d};
      var c := W().Ctx(o);
      if c.retains <= 1 {
        alive := map h | h in alive && !(alive[h].Primary? && alive[h].ordinal == o) :: alive[h];
      }
      contexts := contexts[o := c.(retains := c.retains - 1)];
    }
  }
}
