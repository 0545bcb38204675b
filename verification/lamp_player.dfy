/**
 The lamp player: the table's lamp mappings are turned into two lookups,
 lamp id -> assigned playfield items and lamp id -> item -> mapping, and
 lamp events from the game-logic engine are dispatched through them to the
 registered lamp components. The lamp components are recorded as a log of
 the calls made on them; the observable state is the lamp status table.
 */
module LampPlayer {
  import opened Wrappers

  datatype LampType = SingleOnOff | SingleFading | Rgb | RgbMulti
  datatype LampDestination = Playfield | Device
  datatype LampSource = Lamps | Coils
  datatype ColorChannel = Red | Green | Blue | Alpha
  datatype Color = Color(r: real, g: real, b: real, a: real)

  /** One lamp entry of the table's mappings. */
  datatype LampMapping = LampMapping(
    id: string,
    source: LampSource,
    destination: LampDestination,
    playfieldItem: string,
    lampType: LampType,
    green: string,
    blue: string)

  /** A registered lamp component, known by identity only. */
  datatype LampApi = LampApi(handle: nat)

  /** A call made on a lamp component; `RgbHandled` is a hand-over to the RGB handler. */
  datatype LampCall =
    | OnLamp(lamp: LampApi, value: real, channel: ColorChannel)
    | OnLampColor(lamp: LampApi, color: Color)
    | RgbHandled(lamp: LampApi, mapping: LampMapping, itemName: string)

  datatype LampEvent = LampEvent(id: string, value: int, source: LampSource)
  datatype LampColorEvent = LampColorEvent(id: string, color: Color)

  /**
   The player's state. `subscriptions` counts how many times the three
   event handlers are attached to the engine.
   */
  datatype Player = Player(
    hasEngine: bool,
    lamps: map<string, LampApi>,
    assignments: map<string, seq<string>>,
    mappings: map<string, map<string, LampMapping>>,
    statuses: map<string, real>,
    subscriptions: nat,
    calls: seq<LampCall>)

  /** The lookups agree: every assigned item has a mapping and every assigned id a status. */
  predicate WellFormed(p: Player)
  {
    && p.assignments.Keys == p.mappings.Keys
    && p.assignments.Keys <= p.statuses.Keys
    && forall id, item :: id in p.assignments && item in p.assignments[id] ==> item in p.mappings[id]
  }

  /** A player just woken up, with or without a game-logic engine. */
  function Awake(hasEngine: bool): (p: Player)
    ensures WellFormed(p) && p.hasEngine == hasEngine
    ensures p.lamps == map[] && p.mappings == map[]
    ensures p.assignments == map[] && p.statuses == map[] && p.subscriptions == 0 && p.calls == []
  {
    Player(hasEngine, map[], map[], map[], map[], 0, [])
  }

  /** `RegisterLamp`: the component is stored under the item's name, replacing any earlier one. */
  function RegisterLamp(p: Player, name: string, lamp: LampApi): (q: Player)
    ensures q.lamps.Keys == p.lamps.Keys + {name} && q.lamps[name] == lamp
    ensures forall other :: other in p.lamps && other != name ==> q.lamps[other] == p.lamps[other]
    ensures q == p.(lamps := q.lamps)
    ensures WellFormed(p) ==> WellFormed(q)
  {
    p.(lamps := p.lamps[name := lamp])
  }

  /** Registering twice under one name keeps only the second component. */
  lemma RegisterLastWins(p: Player, name: string, first: LampApi, second: LampApi)
    ensures RegisterLamp(RegisterLamp(p, name, first), name, second) == RegisterLamp(p, name, second)
  {
    assert RegisterLamp(RegisterLamp(p, name, first), name, second).lamps == RegisterLamp(p, name, second).lamps;
  }

  /** The items currently assigned to `id`. */
  function AssignedItems(p: Player, id: string): seq<string>
  {
    if id in p.assignments then p.assignments[id] else []
  }

  /**
   `AssignLampMapping`: the mapping's item is appended to the id's list,
   the mapping is stored under the id and item (creating both lookups for
   a new id), and the id's status is reset to 0.
   */
  function AssignLampMapping(p: Player, id: string, d: LampMapping): (q: Player)
    requires WellFormed(p)
    ensures WellFormed(q)
    ensures q.assignments.Keys == p.assignments.Keys + {id}
    ensures q.assignments[id] == AssignedItems(p, id) + [d.playfieldItem]
    ensures q.mappings[id][d.playfieldItem] == d
    ensures id in p.mappings ==>
              forall item :: item in p.mappings[id] && item != d.playfieldItem ==>
                item in q.mappings[id] && q.mappings[id][item] == p.mappings[id][item]
    ensures id in p.mappings ==> q.mappings[id].Keys == p.mappings[id].Keys + {d.playfieldItem}
    ensures id !in p.mappings ==> q.mappings[id].Keys == {d.playfieldItem}
    ensures forall other :: other in p.assignments && other != id ==>
              q.assignments[other] == p.assignments[other] && q.mappings[other] == p.mappings[other]
    ensures q.statuses == p.statuses[id := 0.0]
    ensures q == p.(assignments := q.assignments, mappings := q.mappings, statuses := q.statuses)
  {
    var byItem := if id in p.assignments then p.mappings[id] else map[];
    p.(assignments := p.assignments[id := AssignedItems(p, id) + [d.playfieldItem]],
       mappings := p.mappings[id := byItem[d.playfieldItem := d]],
       statuses := p.statuses[id := 0.0])
  }

  /** An (id, mapping) assignment to be made during start-up. */
  type Assignment = (string, LampMapping)

  /**
   The assignments one mapping entry contributes: none unless it targets
   the playfield with a named item; its own id; and for a multi-lamp RGB
   entry also its green and blue ids when they are named.
   */
  function EntryAssignments(d: LampMapping): seq<Assignment>
  {
    if d.destination != Playfield || d.playfieldItem == "" then []
    else
      [(d.id, d)]
      + (if d.lampType == RgbMulti && d.green != "" then [(d.green, d)] else [])
      + (if d.lampType == RgbMulti && d.blue != "" then [(d.blue, d)] else [])
  }

  /** The assignments of all entries, in order. */
  function ConfigAssignments(config: seq<LampMapping>): seq<Assignment>
  {
    if |config| == 0 then [] else EntryAssignments(config[0]) + ConfigAssignments(config[1..])
  }

  /** The ids a sequence of assignments touches. */
  function IdsOf(pairs: seq<Assignment>): set<string>
  {
    if |pairs| == 0 then {} else {pairs[0].0} + IdsOf(pairs[1..])
  }

  /** The items a sequence of assignments appends to `id`, in order. */
  function ItemsFor(pairs: seq<Assignment>, id: string): seq<string>
  {
    if |pairs| == 0 then []
    else (if pairs[0].0 == id then [pairs[0].1.playfieldItem] else []) + ItemsFor(pairs[1..], id)
  }

  /** The last mapping a sequence of assignments stores under `id` and `item`. */
  function LastMapping(pairs: seq<Assignment>, id: string, item: string): Option<LampMapping>
  {
    if |pairs| == 0 then None
    else
      var later := LastMapping(pairs[1..], id, item);
      if later.Some? then later
      else if pairs[0].0 == id && pairs[0].1.playfieldItem == item then Some(pairs[0].1)
      else None
  }

  /** The assignments made one after the other, as the start-up loop does. */
  function AssignAll(p: Player, pairs: seq<Assignment>): (q: Player)
    requires WellFormed(p)
    ensures WellFormed(q)
    ensures q.assignments.Keys == p.assignments.Keys + IdsOf(pairs)
    ensures q == p.(assignments := q.assignments, mappings := q.mappings, statuses := q.statuses)
    decreases |pairs|
  {
    if |pairs| == 0 then p
    else AssignAll(AssignLampMapping(p, pairs[0].0, pairs[0].1), pairs[1..])
  }

  /** One assignment appends its item to its own id's list and leaves every other list alone. */
  lemma AssignItemsStep(p: Player, id: string, d: LampMapping, other: string)
    requires WellFormed(p)
    ensures AssignedItems(AssignLampMapping(p, id, d), other)
            == AssignedItems(p, other) + (if other == id then [d.playfieldItem] else [])
  {
  }

  /** After the assignments, each id's items are its earlier items followed by those assigned to it, in order. */
  lemma {:induction false} AssignAllItems(p: Player, pairs: seq<Assignment>, id: string)
    requires WellFormed(p)
    ensures AssignedItems(AssignAll(p, pairs), id) == AssignedItems(p, id) + ItemsFor(pairs, id)
    decreases |pairs|
  {
    if |pairs| > 0 {
      var p1 := AssignLampMapping(p, pairs[0].0, pairs[0].1);
      var head := if pairs[0].0 == id then [pairs[0].1.playfieldItem] else [];
      var rest := ItemsFor(pairs[1..], id);
      calc {
        AssignedItems(AssignAll(p, pairs), id);
        AssignedItems(AssignAll(p1, pairs[1..]), id);
        { AssignAllItems(p1, pairs[1..], id); }
        AssignedItems(p1, id) + rest;
        { AssignItemsStep(p, pairs[0].0, pairs[0].1, id); }
        (AssignedItems(p, id) + head) + rest;
        AssignedItems(p, id) + (head + rest);
        AssignedItems(p, id) + ItemsFor(pairs, id);
      }
    }
  }

  /** After the assignments, the mapping under an id and item is the last one assigned there, or the earlier one. */
  lemma {:induction false} AssignAllMapping(p: Player, pairs: seq<Assignment>, id: string, item: string)
    requires WellFormed(p)
    ensures var q := AssignAll(p, pairs);
            LastMapping(pairs, id, item).Some? ==>
              id in q.mappings && item in q.mappings[id] && q.mappings[id][item] == LastMapping(pairs, id, item).value
    ensures var q := AssignAll(p, pairs);
            LastMapping(pairs, id, item).None? && id in p.mappings && item in p.mappings[id] ==>
              id in q.mappings && item in q.mappings[id] && q.mappings[id][item] == p.mappings[id][item]
    decreases |pairs|
  {
    if |pairs| > 0 {
      var p1 := AssignLampMapping(p, pairs[0].0, pairs[0].1);
      AssignMappingStep(p, pairs[0].0, pairs[0].1, id, item);
      AssignAllMapping(p1, pairs[1..], id, item);
    }
  }

  /** One assignment stores its mapping under its id and item and keeps every other stored mapping. */
  lemma AssignMappingStep(p: Player, key: string, d: LampMapping, id: string, item: string)
    requires WellFormed(p)
    ensures var q := AssignLampMapping(p, key, d);
            key == id && d.playfieldItem == item ==>
              id in q.mappings && item in q.mappings[id] && q.mappings[id][item] == d
    ensures var q := AssignLampMapping(p, key, d);
            id in p.mappings && item in p.mappings[id] && !(key == id && d.playfieldItem == item) ==>
              id in q.mappings && item in q.mappings[id] && q.mappings[id][item] == p.mappings[id][item]
  {
  }

  /** After the assignments, every id they touch has status 0 and every other status is kept. */
  lemma {:induction false} AssignAllStatus(p: Player, pairs: seq<Assignment>, id: string)
    requires WellFormed(p)
    ensures var q := AssignAll(p, pairs);
            if id in IdsOf(pairs) then id in q.statuses && q.statuses[id] == 0.0
            else (id in q.statuses <==> id in p.statuses) && (id in p.statuses ==> q.statuses[id] == p.statuses[id])
    decreases |pairs|
  {
    if |pairs| > 0 {
      var p1 := AssignLampMapping(p, pairs[0].0, pairs[0].1);
      AssignAllStatus(p1, pairs[1..], id);
    }
  }

  /** The ids start-up assigns: a playfield entry with a named item assigns its id, and an RGB multi-lamp also its named green and blue ids. */
  predicate Assigns(d: LampMapping, id: string)
  {
    && d.destination == Playfield
    && d.playfieldItem != ""
    && (|| id == d.id
        || (d.lampType == RgbMulti && d.green != "" && id == d.green)
        || (d.lampType == RgbMulti && d.blue != "" && id == d.blue))
  }

  lemma IdsOfAppend(a: seq<Assignment>, b: seq<Assignment>)
    ensures IdsOf(a + b) == IdsOf(a) + IdsOf(b)
  {
    if |a| > 0 {
      assert (a + b)[0] == a[0];
      assert (a + b)[1..] == a[1..] + b;
      IdsOfAppend(a[1..], b);
      assert IdsOf(a + b) == {a[0].0} + IdsOf(a[1..] + b);
    } else {
      assert a + b == b;
    }
  }

  /** The ids one entry contributes are those it assigns. */
  lemma EntryIds(d: LampMapping, id: string)
    ensures id in IdsOf(EntryAssignments(d)) <==> Assigns(d, id)
  {
    var g: seq<Assignment> := if d.lampType == RgbMulti && d.green != "" then [(d.green, d)] else [];
    var b: seq<Assignment> := if d.lampType == RgbMulti && d.blue != "" then [(d.blue, d)] else [];
    if d.destination == Playfield && d.playfieldItem != "" {
      IdsOfAppend([(d.id, d)], g);
      IdsOfAppend([(d.id, d)] + g, b);
    }
  }

  /** An id is assigned at start-up exactly when some entry assigns it. */
  lemma {:induction false} ConfigIds(config: seq<LampMapping>, id: string)
    ensures id in IdsOf(ConfigAssignments(config)) <==> exists i :: 0 <= i < |config| && Assigns(config[i], id)
  {
    if |config| > 0 {
      IdsOfAppend(EntryAssignments(config[0]), ConfigAssignments(config[1..]));
      EntryIds(config[0], id);
      ConfigIds(config[1..], id);
      if id in IdsOf(ConfigAssignments(config[1..])) {
        var i :| 0 <= i < |config[1..]| && Assigns(config[1..][i], id);
        assert Assigns(config[i + 1], id);
      }
      if exists i :: 0 <= i < |config| && Assigns(config[i], id) {
        var i :| 0 <= i < |config| && Assigns(config[i], id);
        if i > 0 {
          assert Assigns(config[1..][i - 1], id);
        }
      }
    }
  }

  /** The player with both lookups emptied; statuses and everything else are kept. */
  function Cleared(p: Player): (q: Player)
    ensures WellFormed(q) && q.assignments == map[]
    ensures q.statuses == p.statuses && q.lamps == p.lamps && q.subscriptions == p.subscriptions
  {
    p.(assignments := map[], mappings := map[])
  }

  /**
   `OnStart`: without an engine nothing happens. Otherwise both lookups are
   rebuilt from the mapping entries, and the handlers are subscribed once
   when at least one id ended up assigned.
   */
  function OnStart(p: Player, config: seq<LampMapping>): (q: Player)
    ensures !p.hasEngine ==> q == p
    ensures p.hasEngine ==> WellFormed(q)
    ensures p.hasEngine ==> q.assignments.Keys == IdsOf(ConfigAssignments(config))
    ensures p.hasEngine ==> q.subscriptions == p.subscriptions + (if |q.assignments| > 0 then 1 else 0)
    ensures q.lamps == p.lamps && q.calls == p.calls && q.hasEngine == p.hasEngine
  {
    if !p.hasEngine then p
    else
      var r := AssignAll(Cleared(p), ConfigAssignments(config));
      if |r.assignments| > 0 then r.(subscriptions := r.subscriptions + 1) else r
  }

  /** After start-up each id's items are exactly those its entries assign, in entry order. */
  lemma StartItems(p: Player, config: seq<LampMapping>, id: string)
    requires p.hasEngine
    ensures AssignedItems(OnStart(p, config), id) == ItemsFor(ConfigAssignments(config), id)
  {
    AssignAllItems(Cleared(p), ConfigAssignments(config), id);
  }

  /** After start-up the mapping under an id and item is the last entry assigned there. */
  lemma StartMapping(p: Player, config: seq<LampMapping>, id: string, item: string)
    requires p.hasEngine
    ensures var q := OnStart(p, config);
            (id in q.mappings && item in q.mappings[id]) <==> LastMapping(ConfigAssignments(config), id, item).Some?
    ensures var q := OnStart(p, config);
            id in q.mappings && item in q.mappings[id] ==>
              q.mappings[id][item] == LastMapping(ConfigAssignments(config), id, item).value
  {
    var pairs := ConfigAssignments(config);
    AssignAllMapping(Cleared(p), pairs, id, item);
    if LastMapping(pairs, id, item).None? {
      NoMappingWithoutAssignment(Cleared(p), pairs, id, item);
    }
  }

  /** Starting from empty lookups, an id and item nobody assigned stays unmapped. */
  lemma {:induction false} NoMappingWithoutAssignment(p: Player, pairs: seq<Assignment>, id: string, item: string)
    requires WellFormed(p)
    requires !(id in p.mappings && item in p.mappings[id])
    requires LastMapping(pairs, id, item).None?
    ensures var q := AssignAll(p, pairs); !(id in q.mappings && item in q.mappings[id])
    decreases |pairs|
  {
    if |pairs| > 0 {
      NoMappingWithoutAssignment(AssignLampMapping(p, pairs[0].0, pairs[0].1), pairs[1..], id, item);
    }
  }

  /** Start-up keeps every earlier status and resets the assigned ids' statuses to 0. */
  lemma StartStatus(p: Player, config: seq<LampMapping>, id: string)
    requires p.hasEngine
    ensures var q := OnStart(p, config);
            (id in p.statuses ==> id in q.statuses)
            && ((exists i :: 0 <= i < |config| && Assigns(config[i], id)) ==> id in q.statuses && q.statuses[id] == 0.0)
    ensures var q := OnStart(p, config);
            !(exists i :: 0 <= i < |config| && Assigns(config[i], id)) ==>
              (id in q.statuses <==> id in p.statuses) && (id in p.statuses ==> q.statuses[id] == p.statuses[id])
  {
    AssignAllStatus(Cleared(p), ConfigAssignments(config), id);
    ConfigIds(config, id);
  }

  /** With an engine, start-up subscribes exactly when some entry targets the playfield with a named item. */
  lemma StartSubscribes(p: Player, config: seq<LampMapping>)
    requires p.hasEngine
    ensures OnStart(p, config).subscriptions == p.subscriptions + 1
            <==> exists i :: 0 <= i < |config| && config[i].destination == Playfield && config[i].playfieldItem != ""
  {
    var q := OnStart(p, config);
    if |q.assignments| > 0 {
      var id :| id in q.assignments;
      ConfigIds(config, id);
      var i :| 0 <= i < |config| && Assigns(config[i], id);
      assert config[i].destination == Playfield && config[i].playfieldItem != "";
    }
    if exists i :: 0 <= i < |config| && config[i].destination == Playfield && config[i].playfieldItem != "" {
      var i :| 0 <= i < |config| && config[i].destination == Playfield && config[i].playfieldItem != "";
      assert Assigns(config[i], config[i].id);
      ConfigIds(config, config[i].id);
      assert config[i].id in q.assignments;
    }
  }

  /** `OnDestroy`: the handlers are detached under the same condition as they were attached. */
  function OnDestroy(p: Player): (q: Player)
    ensures p.hasEngine && |p.assignments| > 0 ==> q.subscriptions == if p.subscriptions > 0 then p.subscriptions - 1 else 0
    ensures !(p.hasEngine && |p.assignments| > 0) ==> q == p
    ensures q == p.(subscriptions := q.subscriptions)
  {
    if |p.assignments| > 0 && p.hasEngine then
      p.(subscriptions := if p.subscriptions > 0 then p.subscriptions - 1 else 0)
    else p
  }

  /** Destroying right after start-up leaves the engine with as many subscriptions as before. */
  lemma DestroyUndoesStart(p: Player, config: seq<LampMapping>)
    ensures OnDestroy(OnStart(p, config)).subscriptions == p.subscriptions
  {
  }

  /** Concatenation regroups freely. */
  lemma AppendAssociates<T>(a: seq<T>, b: seq<T>, c: seq<T>)
    ensures (a + b) + c == a + (b + c)
  {
  }

  /** An item reacts to an event when its mapping has the event's source and a component is registered under its name. */
  predicate Fires(lamps: map<string, LampApi>, byItem: map<string, LampMapping>, source: LampSource, item: string)
    requires item in byItem
  {
    byItem[item].source == source && item in lamps
  }

  /** The assigned items that react to an event from `source`, in assignment order. */
  function FiringItems(lamps: map<string, LampApi>, byItem: map<string, LampMapping>, source: LampSource, items: seq<string>): (r: seq<string>)
    requires forall item :: item in items ==> item in byItem
    ensures |r| <= |items|
    ensures forall item :: item in r ==> item in items && item in lamps && byItem[item].source == source
  {
    if |items| == 0 then []
    else (if Fires(lamps, byItem, source, items[0]) then [items[0]] else []) + FiringItems(lamps, byItem, source, items[1..])
  }

  /** The status each lamp type sets for an event value; a multi-lamp RGB item sets none itself. */
  function StatusValue(t: LampType, value: int): (r: Option<real>)
    ensures r.None? <==> t == RgbMulti
    ensures t == SingleOnOff ==> r == Some(if value > 0 then 1.0 else 0.0)
    ensures r.Some? && t != SingleOnOff ==> r.value * 255.0 == value as real
  {
    match t
    case SingleOnOff => Some(if value > 0 then 1.0 else 0.0)
    case SingleFading => Some(value as real / 255.0)
    case Rgb => Some(value as real / 255.0)
    case RgbMulti => None
  }

  /** The status the last reacting item with a status of its own leaves behind, if any. */
  function LastStatus(lamps: map<string, LampApi>, byItem: map<string, LampMapping>, ev: LampEvent, items: seq<string>): Option<real>
    requires forall item :: item in items ==> item in byItem
  {
    if |items| == 0 then None
    else
      var later := LastStatus(lamps, byItem, ev, items[1..]);
      if later.Some? then later
      else if Fires(lamps, byItem, ev.source, items[0]) then StatusValue(byItem[items[0]].lampType, ev.value)
      else None
  }

  /** The call a reacting item makes: an alpha-channel value, or the hand-over of a multi-lamp RGB item. */
  function ExpectedCall(lamps: map<string, LampApi>, byItem: map<string, LampMapping>, ev: LampEvent, item: string): LampCall
    requires item in byItem && item in lamps
  {
    var status := StatusValue(byItem[item].lampType, ev.value);
    if status.Some? then OnLamp(lamps[item], status.value, Alpha)
    else RgbHandled(lamps[item], byItem[item], item)
  }

  /** The lamp-event switch for one assigned item. */
  function HandleItem(p: Player, ev: LampEvent, item: string): (q: Player)
    requires ev.id in p.mappings && item in p.mappings[ev.id]
    ensures q == p.(statuses := q.statuses, calls := q.calls)
    ensures q.calls == p.calls + if Fires(p.lamps, p.mappings[ev.id], ev.source, item)
                                 then [ExpectedCall(p.lamps, p.mappings[ev.id], ev, item)] else []
    ensures var status := StatusValue(p.mappings[ev.id][item].lampType, ev.value);
            q.statuses == if Fires(p.lamps, p.mappings[ev.id], ev.source, item) && status.Some?
                          then p.statuses[ev.id := status.value] else p.statuses
  {
    var m := p.mappings[ev.id][item];
    if m.source != ev.source then p
    else if item !in p.lamps then p
    else
      var lamp := p.lamps[item];
      match m.lampType
      case SingleOnOff =>
        var value := if ev.value > 0 then 1.0 else 0.0;
        p.(calls := p.calls + [OnLamp(lamp, value, Alpha)], statuses := p.statuses[ev.id := value])
      case Rgb =>
        var value := ev.value as real / 255.0;
        p.(calls := p.calls + [OnLamp(lamp, value, Alpha)], statuses := p.statuses[ev.id := value])
      case SingleFading =>
        var value := ev.value as real / 255.0;
        p.(calls := p.calls + [OnLamp(lamp, value, Alpha)], statuses := p.statuses[ev.id := value])
      case RgbMulti =>
        p.(calls := p.calls + [RgbHandled(lamp, m, item)])
  }

  /** The lamp-event loop over the items assigned to the event's id. */
  function HandleItems(p: Player, ev: LampEvent, items: seq<string>): (q: Player)
    requires ev.id in p.mappings && ev.id in p.statuses
    requires forall item :: item in items ==> item in p.mappings[ev.id]
    ensures q == p.(statuses := q.statuses, calls := q.calls)
    ensures q.statuses.Keys == p.statuses.Keys
    ensures forall k :: k in p.statuses && k != ev.id ==> q.statuses[k] == p.statuses[k]
    ensures |q.calls| == |p.calls| + |FiringItems(p.lamps, p.mappings[ev.id], ev.source, items)|
    ensures q.calls[..|p.calls|] == p.calls
    decreases |items|
  {
    if |items| == 0 then p
    else
      var p1 := HandleItem(p, ev, items[0]);
      var q := HandleItems(p1, ev, items[1..]);
      assert q.calls[..|p.calls|] == q.calls[..|p1.calls|][..|p.calls|];
      q
  }

  /** The items that react to `ev` in the player's current lookups. */
  function Firing(p: Player, ev: LampEvent): seq<string>
    requires WellFormed(p)
  {
    if ev.id in p.assignments then FiringItems(p.lamps, p.mappings[ev.id], ev.source, p.assignments[ev.id]) else []
  }

  /**
   `HandleLampEvent` with a hand-over for multi-lamp RGB items: an
   unassigned id changes nothing; otherwise each assigned item with the
   event's source and a registered component is switched on its mapping's
   type, and only the event id's status can change.
   */
  function HandleLampEvent(p: Player, ev: LampEvent): (q: Player)
    requires WellFormed(p)
    ensures WellFormed(q)
    ensures ev.id !in p.assignments ==> q == p
    ensures q == p.(statuses := q.statuses, calls := q.calls)
    ensures q.statuses.Keys == p.statuses.Keys
    ensures forall k :: k in p.statuses && k != ev.id ==> q.statuses[k] == p.statuses[k]
    ensures |q.calls| == |p.calls| + |Firing(p, ev)|
    ensures q.calls[..|p.calls|] == p.calls
  {
    if ev.id in p.assignments then HandleItems(p, ev, p.assignments[ev.id]) else p
  }

  /** The calls the reacting items make, in order. */
  function ItemCalls(lamps: map<string, LampApi>, byItem: map<string, LampMapping>, ev: LampEvent, items: seq<string>): (r: seq<LampCall>)
    requires forall item :: item in items ==> item in byItem
    ensures |r| == |FiringItems(lamps, byItem, ev.source, items)|
  {
    if |items| == 0 then []
    else (if Fires(lamps, byItem, ev.source, items[0]) then [ExpectedCall(lamps, byItem, ev, items[0])] else [])
         + ItemCalls(lamps, byItem, ev, items[1..])
  }

  /** The i-th call is the one the i-th reacting item calls for. */
  lemma {:induction false} ItemCallsAt(lamps: map<string, LampApi>, byItem: map<string, LampMapping>, ev: LampEvent, items: seq<string>, i: int)
    requires forall item :: item in items ==> item in byItem
    requires 0 <= i < |FiringItems(lamps, byItem, ev.source, items)|
    ensures ItemCalls(lamps, byItem, ev, items)[i] == ExpectedCall(lamps, byItem, ev, FiringItems(lamps, byItem, ev.source, items)[i])
    decreases |items|
  {
    var firing := FiringItems(lamps, byItem, ev.source, items[1..]);
    var rest := ItemCalls(lamps, byItem, ev, items[1..]);
    if Fires(lamps, byItem, ev.source, items[0]) {
      assert FiringItems(lamps, byItem, ev.source, items) == [items[0]] + firing;
      assert ItemCalls(lamps, byItem, ev, items) == [ExpectedCall(lamps, byItem, ev, items[0])] + rest;
      if i > 0 {
        ItemCallsAt(lamps, byItem, ev, items[1..], i - 1);
      }
    } else {
      assert FiringItems(lamps, byItem, ev.source, items) == firing;
      assert ItemCalls(lamps, byItem, ev, items) == rest;
      ItemCallsAt(lamps, byItem, ev, items[1..], i);
    }
  }

  /** The loop appends exactly the reacting items' calls. */
  lemma {:induction false} HandleItemsAppends(p: Player, ev: LampEvent, items: seq<string>)
    requires ev.id in p.mappings && ev.id in p.statuses
    requires forall item :: item in items ==> item in p.mappings[ev.id]
    ensures HandleItems(p, ev, items).calls == p.calls + ItemCalls(p.lamps, p.mappings[ev.id], ev, items)
    decreases |items|
  {
    if |items| > 0 {
      var p1 := HandleItem(p, ev, items[0]);
      var byItem := p.mappings[ev.id];
      var head := if Fires(p.lamps, byItem, ev.source, items[0]) then [ExpectedCall(p.lamps, byItem, ev, items[0])] else [];
      var rest := ItemCalls(p.lamps, byItem, ev, items[1..]);
      HandleItemsAppends(p1, ev, items[1..]);
      calc {
        HandleItems(p, ev, items).calls;
        HandleItems(p1, ev, items[1..]).calls;
        p1.calls + rest;
        (p.calls + head) + rest;
        { AppendAssociates(p.calls, head, rest); }
        p.calls + (head + rest);
        p.calls + ItemCalls(p.lamps, byItem, ev, items);
      }
    }
  }

  /** The event id's status after the loop is the last status written, or the earlier one. */
  lemma {:induction false} HandleItemsStatus(p: Player, ev: LampEvent, items: seq<string>)
    requires ev.id in p.mappings && ev.id in p.statuses
    requires forall item :: item in items ==> item in p.mappings[ev.id]
    ensures var last := LastStatus(p.lamps, p.mappings[ev.id], ev, items);
            HandleItems(p, ev, items).statuses[ev.id] == if last.Some? then last.value else p.statuses[ev.id]
    decreases |items|
  {
    if |items| > 0 {
      var p1 := HandleItem(p, ev, items[0]);
      HandleItemsStatus(p1, ev, items[1..]);
    }
  }

  /** The i-th new call of a lamp event is what the i-th reacting item calls for. */
  lemma EventCalls(p: Player, ev: LampEvent, i: int)
    requires WellFormed(p)
    requires 0 <= i < |Firing(p, ev)|
    ensures ev.id in p.mappings && Firing(p, ev)[i] in p.lamps && Firing(p, ev)[i] in p.mappings[ev.id]
    ensures HandleLampEvent(p, ev).calls[|p.calls| + i] == ExpectedCall(p.lamps, p.mappings[ev.id], ev, Firing(p, ev)[i])
  {
    HandleItemsAppends(p, ev, p.assignments[ev.id]);
    ItemCallsAt(p.lamps, p.mappings[ev.id], ev, p.assignments[ev.id], i);
  }

  /**
   After a lamp event for an assigned id, its status is the value the last
   reacting single or RGB item set: 1 or 0 for an on/off lamp, value/255
   otherwise; without such an item it keeps its earlier value.
   */
  lemma EventStatus(p: Player, ev: LampEvent)
    requires WellFormed(p) && ev.id in p.assignments
    ensures var last := LastStatus(p.lamps, p.mappings[ev.id], ev, p.assignments[ev.id]);
            HandleLampEvent(p, ev).statuses[ev.id] == if last.Some? then last.value else p.statuses[ev.id]
  {
    HandleItemsStatus(p, ev, p.assignments[ev.id]);
  }

  /** An event no assigned item reacts to leaves the player unchanged. */
  lemma {:induction false} QuietItems(p: Player, ev: LampEvent, items: seq<string>)
    requires ev.id in p.mappings && ev.id in p.statuses
    requires forall item :: item in items ==> item in p.mappings[ev.id]
    requires |FiringItems(p.lamps, p.mappings[ev.id], ev.source, items)| == 0
    ensures HandleItems(p, ev, items) == p
    decreases |items|
  {
    if |items| > 0 {
      assert HandleItem(p, ev, items[0]) == p;
      QuietItems(p, ev, items[1..]);
    }
  }

  /** Events from another source, or for items without a registered component, change nothing. */
  lemma QuietEvent(p: Player, ev: LampEvent)
    requires WellFormed(p) && |Firing(p, ev)| == 0
    ensures HandleLampEvent(p, ev) == p
  {
    if ev.id in p.assignments {
      QuietItems(p, ev, p.assignments[ev.id]);
    }
  }

  /** The items a colour event reaches: registered items whose mapping is of type `Rgb`, whatever their source. */
  function ColorItems(lamps: map<string, LampApi>, byItem: map<string, LampMapping>, items: seq<string>): (r: seq<string>)
    requires forall item :: item in items ==> item in byItem
    ensures |r| <= |items|
    ensures forall item :: item in r ==> item in items && item in lamps && byItem[item].lampType == Rgb
  {
    if |items| == 0 then []
    else (if items[0] in lamps && byItem[items[0]].lampType == Rgb then [items[0]] else []) + ColorItems(lamps, byItem, items[1..])
  }

  /** The colour-event switch for one assigned item. */
  function ColorItem(p: Player, ev: LampColorEvent, item: string): (q: Player)
    requires ev.id in p.mappings && item in p.mappings[ev.id]
    ensures q.lamps == p.lamps && q.mappings == p.mappings && q.assignments == p.assignments
    ensures q.statuses == p.statuses && q.hasEngine == p.hasEngine && q.subscriptions == p.subscriptions
    ensures q.calls == p.calls + if item in p.lamps && p.mappings[ev.id][item].lampType == Rgb
                                 then [OnLampColor(p.lamps[item], ev.color)] else []
  {
    var m := p.mappings[ev.id][item];
    if item in p.lamps then
      match m.lampType
      case Rgb => p.(calls := p.calls + [OnLampColor(p.lamps[item], ev.color)])
      case _ => p
    else p
  }

  /** The colour-event loop over the items assigned to the event's id. */
  function ColorLoop(p: Player, ev: LampColorEvent, items: seq<string>): (q: Player)
    requires ev.id in p.mappings
    requires forall item :: item in items ==> item in p.mappings[ev.id]
    ensures q.lamps == p.lamps && q.mappings == p.mappings && q.assignments == p.assignments
    ensures q.statuses == p.statuses && q.hasEngine == p.hasEngine && q.subscriptions == p.subscriptions
    ensures |q.calls| == |p.calls| + |ColorItems(p.lamps, p.mappings[ev.id], items)|
    ensures q.calls[..|p.calls|] == p.calls
    decreases |items|
  {
    if |items| == 0 then p
    else
      var p1 := ColorItem(p, ev, items[0]);
      var q := ColorLoop(p1, ev, items[1..]);
      assert q.calls[..|p.calls|] == q.calls[..|p1.calls|][..|p.calls|];
      q
  }

  /** The calls a colour event makes on the items it reaches, in order. */
  function ColorCalls(lamps: map<string, LampApi>, byItem: map<string, LampMapping>, items: seq<string>, color: Color): (r: seq<LampCall>)
    requires forall item :: item in items ==> item in byItem
    ensures |r| == |ColorItems(lamps, byItem, items)|
  {
    if |items| == 0 then []
    else (if items[0] in lamps && byItem[items[0]].lampType == Rgb then [OnLampColor(lamps[items[0]], color)] else [])
         + ColorCalls(lamps, byItem, items[1..], color)
  }

  lemma {:induction false} ColorCallsAt(lamps: map<string, LampApi>, byItem: map<string, LampMapping>, items: seq<string>, color: Color, i: int)
    requires forall item :: item in items ==> item in byItem
    requires 0 <= i < |ColorItems(lamps, byItem, items)|
    ensures ColorCalls(lamps, byItem, items, color)[i] == OnLampColor(lamps[ColorItems(lamps, byItem, items)[i]], color)
    decreases |items|
  {
    var reached := ColorItems(lamps, byItem, items[1..]);
    var rest := ColorCalls(lamps, byItem, items[1..], color);
    if items[0] in lamps && byItem[items[0]].lampType == Rgb {
      assert ColorItems(lamps, byItem, items) == [items[0]] + reached;
      assert ColorCalls(lamps, byItem, items, color) == [OnLampColor(lamps[items[0]], color)] + rest;
      if i > 0 {
        ColorCallsAt(lamps, byItem, items[1..], color, i - 1);
      }
    } else {
      assert ColorItems(lamps, byItem, items) == reached;
      assert ColorCalls(lamps, byItem, items, color) == rest;
      ColorCallsAt(lamps, byItem, items[1..], color, i);
    }
  }

  lemma {:induction false} ColorLoopAppends(p: Player, ev: LampColorEvent, items: seq<string>)
    requires ev.id in p.mappings
    requires forall item :: item in items ==> item in p.mappings[ev.id]
    ensures ColorLoop(p, ev, items).calls == p.calls + ColorCalls(p.lamps, p.mappings[ev.id], items, ev.color)
    decreases |items|
  {
    if |items| > 0 {
      var p1 := ColorItem(p, ev, items[0]);
      var byItem := p.mappings[ev.id];
      var head := if items[0] in p.lamps && byItem[items[0]].lampType == Rgb then [OnLampColor(p.lamps[items[0]], ev.color)] else [];
      var rest := ColorCalls(p.lamps, byItem, items[1..], ev.color);
      ColorLoopAppends(p1, ev, items[1..]);
      calc {
        ColorLoop(p, ev, items).calls;
        ColorLoop(p1, ev, items[1..]).calls;
        p1.calls + rest;
        (p.calls + head) + rest;
        { AppendAssociates(p.calls, head, rest); }
        p.calls + (head + rest);
        p.calls + ColorCalls(p.lamps, byItem, items, ev.color);
      }
    }
  }

  /**
   `HandleLampColorEvent`: for an assigned id, every registered item mapped
   as `Rgb` receives the colour; statuses and lookups never change.
   */
  function HandleLampColorEvent(p: Player, ev: LampColorEvent): (q: Player)
    requires WellFormed(p)
    ensures q.lamps == p.lamps && q.mappings == p.mappings && q.assignments == p.assignments
    ensures q.statuses == p.statuses && q.hasEngine == p.hasEngine && q.subscriptions == p.subscriptions
    ensures ev.id !in p.assignments ==> q == p
    ensures ev.id in p.assignments ==>
              |q.calls| == |p.calls| + |ColorItems(p.lamps, p.mappings[ev.id], p.assignments[ev.id])|
    ensures q.calls[..|p.calls|] == p.calls
  {
    if ev.id in p.assignments then ColorLoop(p, ev, p.assignments[ev.id]) else p
  }

  /** The i-th new call of a colour event sets the event's colour on the i-th reached item. */
  lemma ColorEventCalls(p: Player, ev: LampColorEvent, i: int)
    requires WellFormed(p) && ev.id in p.assignments
    requires 0 <= i < |ColorItems(p.lamps, p.mappings[ev.id], p.assignments[ev.id])|
    ensures var reached := ColorItems(p.lamps, p.mappings[ev.id], p.assignments[ev.id]);
            HandleLampColorEvent(p, ev).calls[|p.calls| + i] == OnLampColor(p.lamps[reached[i]], ev.color)
  {
    ColorLoopAppends(p, ev, p.assignments[ev.id]);
    ColorCallsAt(p.lamps, p.mappings[ev.id], p.assignments[ev.id], ev.color, i);
  }

  /** The channel the single-event RGB handler drives: red, green or blue by which of the mapping's ids the event carries. */
  function RgbChannel(eventId: string, m: LampMapping): (r: Option<ColorChannel>)
    ensures r.None? <==> eventId != m.id && eventId != m.green && eventId != m.blue
    ensures r == Some(Red) <==> eventId == m.id
    ensures r == Some(Green) <==> eventId != m.id && eventId == m.green
    ensures r == Some(Blue) <==> eventId != m.id && eventId != m.green && eventId == m.blue
    ensures r.Some? ==> r.value != Alpha
  {
    if eventId == m.id then Some(Red)
    else if eventId == m.green then Some(Green)
    else if eventId == m.blue then Some(Blue)
    else None
  }

  /** The lamp call the single-event RGB handler makes for a hand-over: value/255 on the chosen channel, or none. */
  function RgbHandlerCall(ev: LampEvent, lamp: LampApi, m: LampMapping): (r: Option<LampCall>)
    ensures r.Some? <==> RgbChannel(ev.id, m).Some?
    ensures r.Some? ==> r.value.OnLamp? && r.value.lamp == lamp && r.value.value * 255.0 == ev.value as real
    ensures r.Some? ==> r.value.channel == RgbChannel(ev.id, m).value
  {
    match RgbChannel(ev.id, m)
    case Some(channel) => Some(OnLamp(lamp, ev.value as real / 255.0, channel))
    case None => None
  }

  /** An assignment stores a mapping under its own id, or under its green or blue id when it is a multi-lamp RGB entry. */
  predicate Keyed(a: Assignment)
  {
    a.0 == a.1.id || (a.1.lampType == RgbMulti && (a.0 == a.1.green || a.0 == a.1.blue))
  }

  /** Every assignment start-up makes is keyed by one of its mapping's ids and names the mapping's item. */
  lemma {:induction false} ConfigKeyed(config: seq<LampMapping>)
    ensures forall k :: 0 <= k < |ConfigAssignments(config)| ==> Keyed(ConfigAssignments(config)[k])
  {
    if |config| > 0 {
      ConfigKeyed(config[1..]);
      var head := EntryAssignments(config[0]);
      assert forall k :: 0 <= k < |head| ==> Keyed(head[k]);
    }
  }

  /** The last mapping stored under an id and item by keyed assignments is keyed by that id and names that item. */
  lemma {:induction false} LastMappingKeyed(pairs: seq<Assignment>, id: string, item: string)
    requires forall k :: 0 <= k < |pairs| ==> Keyed(pairs[k])
    requires LastMapping(pairs, id, item).Some?
    ensures var m := LastMapping(pairs, id, item).value; Keyed((id, m)) && m.playfieldItem == item
  {
    assert Keyed(pairs[0]);
    if LastMapping(pairs[1..], id, item).Some? {
      assert forall k :: 0 <= k < |pairs[1..]| ==> Keyed(pairs[1..][k]) by {
        forall k | 0 <= k < |pairs[1..]| ensures Keyed(pairs[1..][k]) {
          assert pairs[1..][k] == pairs[k + 1];
        }
      }
      LastMappingKeyed(pairs[1..], id, item);
    }
  }

  /**
   After start-up, a multi-lamp RGB hand-over for any assigned id always
   finds a channel: the handler's "cannot assign" branch cannot be reached
   through mappings built by start-up.
   */
  lemma StartedRgbHasChannel(p: Player, config: seq<LampMapping>, ev: LampEvent, item: string, lamp: LampApi)
    requires p.hasEngine
    requires var q := OnStart(p, config); ev.id in q.mappings && item in q.mappings[ev.id]
    requires OnStart(p, config).mappings[ev.id][item].lampType == RgbMulti
    ensures var m := OnStart(p, config).mappings[ev.id][item];
            m.playfieldItem == item && RgbHandlerCall(ev, lamp, m).Some?
  {
    StartMapping(p, config, ev.id, item);
    ConfigKeyed(config);
    LastMappingKeyed(ConfigAssignments(config), ev.id, item);
  }
}
