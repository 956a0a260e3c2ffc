/** The address manager over whole lives: runs of calls with saving and reloading in between. */
module AddrLife {
  import opened AddrState
  import opened AddrOps
  import opened AddrRuns
  import opened AddrStream
  import opened AddrRoundTrip

  /** One of the calls of a run, or a restart from the file just written. */
  datatype Event = Call(op: Op) | Reload

  predicate Allowed(ev: Event) { ev.Call? ==> Legal(ev.op) }

  ghost predicate AllAllowed(evs: seq<Event>) { forall k :: 0 <= k < |evs| ==> Allowed(evs[k]) }

  ghost function Live(s: State, ev: Event): (t: State)
    requires Inv(s) && Allowed(ev)
    ensures Inv(t)
  {
    match ev
    case Call(op) => Step(s, op)
    case Reload =>
      RoundTrip(s, []);
      Load(s.env, Save(s))
  }

  ghost function Life(s: State, evs: seq<Event>): (t: State)
    requires Inv(s) && AllAllowed(evs)
    ensures Inv(t)
    decreases |evs|
  {
    if evs == [] then s else Live(Life(s, evs[..|evs| - 1]), evs[|evs| - 1])
  }

  /** Restarts included, every life from the empty manager stays consistent and bounded, and a restart keeps every
      address with its statistics, status and buckets. */
  lemma EveryLife(env: Env, key: seq<nat>, evs: seq<Event>)
    requires AllAllowed(evs)
    ensures Inv(Init(env, key))
    ensures var t := Life(Init(env, key), evs);
            && Inv(t) && |t.vRandom| == t.nNew + t.nTried <= 256 * 64 + 64 * 64
            && Live(t, Reload).mapAddr.Keys == t.mapAddr.Keys
            && forall a :: a in t.mapAddr ==> SameByAddress(t, Live(t, Reload), a)
  {
    InitInv(env, key);
    hide Inv, Life, SameByAddress, Save, Load;
    var t := Life(Init(env, key), evs);
    Bounded(t);
    RoundTrip(t, []);
  }
}
