/**
The residency lifecycle of one expert and the table that holds it
(src/scheduler/ExpertState.cpp). The table is guarded by its own mutex in the
source, so every operation below is one atomic step.
 */
module ExpertStates {
  import opened Wrappers

  datatype MemoryTier = Vram | Ram | PinnedRam | Nvme

  datatype Lifecycle = Requested | Queued | Loading | Ready | InUse | Evicting | Failed

  datatype ExpertState = ExpertState(
    currentLocation: MemoryTier,
    targetLocation: MemoryTier,
    state: Lifecycle,
    usageCount: nat)

  /** A 32-bit layer or expert number. */
  type Id32 = x: int | 0 <= x < 0x1_0000_0000

  /** The packed table key: layer in the high half, expert in the low half. */
  type Key = x: int | 0 <= x < 0x1_0000_0000_0000_0000

  function MakeKey(layer: Id32, expert: Id32): (key: Key)
  {
    layer * 0x1_0000_0000 + expert
  }

  function KeyLayer(key: Key): (layer: Id32)
  {
    key / 0x1_0000_0000
  }

  function KeyExpert(key: Key): (expert: Id32)
  {
    key % 0x1_0000_0000
  }

  /** Unpacking a key and packing it again are inverse, so the sweeps that
      unpack stored keys reach the very expert the key was made for. */
  lemma {:induction false} KeyRoundTrip(layer: Id32, expert: Id32, key: Key)
    ensures KeyLayer(MakeKey(layer, expert)) == layer
    ensures KeyExpert(MakeKey(layer, expert)) == expert
    ensures MakeKey(KeyLayer(key), KeyExpert(key)) == key
  {
  }

  /** Keys in ascending order are layers in order, and in a layer experts in order. */
  lemma {:induction false} KeyOrder(layer: Id32, expert: Id32, otherLayer: Id32, other: Id32)
    ensures MakeKey(layer, expert) < MakeKey(otherLayer, other) <==>
      layer < otherLayer || (layer == otherLayer && expert < other)
  {
  }

  datatype Action =
    | Request(target: MemoryTier)
    | MarkQueued
    | MarkLoading
    | MarkReady(location: MemoryTier)
    | Acquire
    | Release
    | BeginEviction(target: MemoryTier)
    | MarkFailed
    | Reconcile(location: MemoryTier)

  /** The effect of one operation on one expert; None where the source throws. */
  function Fire(e: ExpertState, a: Action): Option<ExpertState> {
    match a
    case Request(target) =>
      if e.state in {Ready, Failed} then Some(e.(targetLocation := target, state := Requested)) else None
    case MarkQueued =>
      if e.state == Requested then Some(e.(state := Queued)) else None
    case MarkLoading =>
      if e.state == Queued then Some(e.(state := Loading)) else None
    case MarkReady(location) =>
      if e.state in {Loading, Evicting, Requested}
      then Some(e.(currentLocation := location, targetLocation := location, state := Ready)) else None
    case Acquire =>
      if e.state == Ready then Some(e.(state := InUse, usageCount := e.usageCount + 1)) else None
    case Release =>
      if e.state == InUse then Some(e.(state := Ready)) else None
    case BeginEviction(target) =>
      if e.state == Ready then Some(e.(targetLocation := target, state := Evicting)) else None
    case MarkFailed =>
      Some(e.(state := Failed))
    case Reconcile(location) =>
      if e.state in {InUse, Loading, Queued, Evicting} then None
      else Some(e.(currentLocation := location, targetLocation := location, state := Ready))
  }

  type Table = map<Key, ExpertState>

  /** Fire at one key of the table; None also when the key is not registered. */
  function FireAt(table: Table, key: Key, a: Action): Option<Table> {
    if key !in table then None
    else match Fire(table[key], a)
      case Some(e) => Some(table[key := e])
      case None => None
  }

  /** The moves of the lifecycle, each with the states it starts from. */
  predicate Allowed(state: Lifecycle, a: Action) {
    match a
    case Request(_) => state == Ready || state == Failed
    case MarkQueued => state == Requested
    case MarkLoading => state == Queued
    case MarkReady(_) => state == Requested || state == Loading || state == Evicting
    case Acquire => state == Ready
    case Release => state == InUse
    case BeginEviction(_) => state == Ready
    case MarkFailed => true
    case Reconcile(_) => state == Requested || state == Ready || state == Failed
  }

  /** And where they lead. Only an arrival and a reconciliation move an expert,
      and both leave it ready where it is; only an acquisition counts as a use. */
  lemma {:induction false} MovesAre(e: ExpertState, a: Action)
    ensures Fire(e, a).Some? <==> Allowed(e.state, a)
    ensures Fire(e, a).Some? ==>
      var e' := Fire(e, a).value;
      && (e'.state == match a
            case Request(_) => Requested
            case MarkQueued => Queued
            case MarkLoading => Loading
            case MarkReady(_) => Ready
            case Acquire => InUse
            case Release => Ready
            case BeginEviction(_) => Evicting
            case MarkFailed => Failed
            case Reconcile(_) => Ready)
      && (if a.MarkReady? || a.Reconcile? then e'.currentLocation == e'.targetLocation == a.location
          else e'.currentLocation == e.currentLocation)
      && (if a.Request? || a.BeginEviction? then e'.targetLocation == a.target
          else a.MarkReady? || a.Reconcile? || e'.targetLocation == e.targetLocation)
      && e'.usageCount == (if a.Acquire? then e.usageCount + 1 else e.usageCount)
  {
  }

  /** The table as the source keeps it: entries assigned in place. */
  class ResidencyStateMachine {
    var states: Table

    constructor ()
      ensures states == map[]
    {
      states := map[];
    }

    method RegisterExpert(key: Key, location: MemoryTier) returns (ok: bool)
      modifies this
      ensures ok == (key !in old(states))
      ensures states == if ok then old(states)[key := ExpertState(location, location, Ready, 0)] else old(states)
    {
      if key in states {
        return false;
      }
      states := states[key := ExpertState(location, location, Ready, 0)];
      return true;
    }

    /** Every guarded transition: on a refused guard nothing changes. */
    method Transition(key: Key, a: Action) returns (ok: bool)
      modifies this
      ensures ok == FireAt(old(states), key, a).Some?
      ensures states == if ok then FireAt(old(states), key, a).value else old(states)
    {
      if key !in states {
        return false;
      }
      var e := states[key];
      match a {
        case Request(target) =>
          if e.state != Ready && e.state != Failed { return false; }
          e := e.(targetLocation := target, state := Requested);
        case MarkQueued =>
          if e.state != Requested { return false; }
          e := e.(state := Queued);
        case MarkLoading =>
          if e.state != Queued { return false; }
          e := e.(state := Loading);
        case MarkReady(location) =>
          if e.state != Loading && e.state != Evicting && e.state != Requested { return false; }
          e := e.(currentLocation := location);
          e := e.(targetLocation := location);
          e := e.(state := Ready);
        case Acquire =>
          if e.state != Ready { return false; }
          e := e.(state := InUse);
          e := e.(usageCount := e.usageCount + 1);
        case Release =>
          if e.state != InUse { return false; }
          e := e.(state := Ready);
        case BeginEviction(target) =>
          if e.state != Ready { return false; }
          e := e.(targetLocation := target, state := Evicting);
        case MarkFailed =>
          e := e.(state := Failed);
        case Reconcile(location) =>
          if e.state == InUse || e.state == Loading || e.state == Queued || e.state == Evicting { return false; }
          e := e.(currentLocation := location);
          e := e.(targetLocation := location);
          e := e.(state := Ready);
      }
      states := states[key := e];
      return true;
    }

    method Snapshot(key: Key) returns (r: Option<ExpertState>)
      ensures r == if key in states then Some(states[key]) else None
    {
      if key in states {
        return Some(states[key]);
      }
      return None;
    }
  }
}
