/**
 * The activation logic of the GooeyNav widget, apart from the DOM: the clamped
 * active index, the registry of pending timers and its cleanup, the live
 * particle nodes, the highlight box and the activation sequence.
 *
 * Timers are an abstract table: registering one appends it, the browser may
 * fire any pending timer (the environment picks which, by calling Fire), and
 * clearing one drops it from the table.  Particle nodes are descriptors with
 * a node number in place of a DOM element.
 */
module GooeyNav {
  import opened GooeyParticles

  datatype Option<T> = None | Some(value: T)

  /** clampIndex: the nearest index of a list of `max` items, 0 for an empty list. */
  function ClampIndex(value: int, max: int): (r: int)
    ensures max <= 0 ==> r == 0
    ensures 0 < max ==> 0 <= r < max
    ensures 0 <= value < max ==> r == value
    ensures 0 < max && value < 0 ==> r == 0
    ensures 0 < max && max <= value ==> r == max - 1
  {
    if max <= 0 then 0
    else if value < 0 then 0
    else if value > max - 1 then max - 1
    else value
  }

  /** Three items and an initial index of 5 give the last item. */
  lemma ClampScenario()
    ensures ClampIndex(5, 3) == 2
  {}

  /** Clamping twice is clamping once. */
  lemma ClampIdempotent(value: int, max: int)
    ensures ClampIndex(ClampIndex(value, max), max) == ClampIndex(value, max)
  {}

  // ----- the highlight box ---------------------------------------------------

  /** A bounding client rectangle. */
  datatype Rect = Rect(x: real, y: real, width: real, height: real)

  /** The left/top/width/height written on the highlight element. */
  datatype Box = Box(left: real, top: real, width: real, height: real)

  /** `scale || 1`: a zero scale falls back to 1. */
  function ScaleFactor(scale: real): (s: real)
    ensures s != 0.0
    ensures scale != 0.0 ==> s == scale
    ensures scale == 0.0 ==> s == 1.0
  {
    if scale == 0.0 then 1.0 else scale
  }

  /**
   * The box that overlaps `element` inside `container` once the widget's own
   * scale transform is undone; None when the container, the highlight
   * element or the item element is missing.
   */
  function EffectBox(container: Option<Rect>, hasFilter: bool, element: Option<Rect>, scale: real): (b: Option<Box>)
    ensures b.Some? <==> container.Some? && hasFilter && element.Some?
    ensures b.Some? ==>
      var s, c, e := ScaleFactor(scale), container.value, element.value;
      && b.value.left * s == e.x - c.x
      && b.value.top * s == e.y - c.y
      && b.value.width * s == e.width
      && b.value.height * s == e.height
  {
    if container.None? || !hasFilter || element.None? then None
    else
      var s, c, e := ScaleFactor(scale), container.value, element.value;
      Some(Box((e.x - c.x) / s, (e.y - c.y) / s, e.width / s, e.height / s))
  }

  /** At scale 2 an item 200 wide is covered by a box 100 wide; at scale 0 by one 200 wide. */
  lemma EffectBoxScenario(c: Rect, e: Rect)
    requires e.width == 200.0
    ensures EffectBox(Some(c), true, Some(e), 2.0).value.width == 100.0
    ensures EffectBox(Some(c), true, Some(e), 0.0).value.width == 200.0
  {
    var b2 := EffectBox(Some(c), true, Some(e), 2.0).value;
    assert b2.width * 2.0 == 200.0;
  }

  // ----- sequences of timer ids, timers and particle nodes -------------------

  /** `filter(storedId => storedId !== x)`. */
  function Without(s: seq<nat>, x: nat): (r: seq<nat>)
    ensures |r| <= |s|
    ensures forall y :: y in r <==> y in s && y != x
  {
    if s == [] then [] else (if s[0] == x then [] else [s[0]]) + Without(s[1..], x)
  }

  lemma {:induction false} WithoutConcat(a: seq<nat>, b: seq<nat>, x: nat)
    ensures Without(a + b, x) == Without(a, x) + Without(b, x)
  {
    if a == [] {
      assert a + b == b;
    } else {
      var head := if a[0] == x then [] else [a[0]];
      assert (a + b)[0] == a[0];
      assert (a + b)[1..] == a[1..] + b;
      assert Without(a + b, x) == head + Without(a[1..] + b, x);
      WithoutConcat(a[1..], b, x);
      assert Without(a, x) == head + Without(a[1..], x);
      assert head + (Without(a[1..], x) + Without(b, x)) == (head + Without(a[1..], x)) + Without(b, x);
    }
  }

  lemma {:induction false} WithoutAbsent(s: seq<nat>, x: nat)
    requires x !in s
    ensures Without(s, x) == s
  {
    if s != [] {
      WithoutAbsent(s[1..], x);
    }
  }

  /**
   * Removing a registered id removes exactly that id: the ids before it and
   * after it stay, in their order.
   */
  lemma WithoutOne(a: seq<nat>, x: nat, b: seq<nat>)
    requires x !in a && x !in b
    ensures Without(a + [x] + b, x) == a + b
  {
    WithoutConcat(a + [x], b, x);
    WithoutConcat(a, [x], x);
    WithoutAbsent(a, x);
    WithoutAbsent(b, x);
    assert Without([x], x) == [] by {
      assert [x][1..] == [];
    }
    assert a + [] == a;
  }

  predicate Distinct(s: seq<nat>)
  {
    forall i, j :: 0 <= i < j < |s| ==> s[i] != s[j]
  }

  lemma {:induction false} WithoutDistinct(s: seq<nat>, x: nat)
    requires Distinct(s)
    ensures Distinct(Without(s, x))
  {
    if s != [] {
      WithoutDistinct(s[1..], x);
      var rest := Without(s[1..], x);
      assert s[0] !in s[1..] by {
        forall k | 0 <= k < |s[1..]| ensures s[1..][k] != s[0] {
          assert s[k + 1] != s[0];
        }
      }
      assert s[0] !in rest;
    }
  }

  /** The ids of a list of timers, in order. */
  function Ids(ts: seq<Timer>): (r: seq<nat>)
    ensures |r| == |ts|
    ensures forall k :: 0 <= k < |ts| ==> r[k] == ts[k].id
  {
    if ts == [] then [] else [ts[0].id] + Ids(ts[1..])
  }

  /** The timer table once the timer with id `id` is gone (fired or cleared). */
  function Cancel(ts: seq<Timer>, id: nat): (r: seq<Timer>)
    ensures forall t :: t in r <==> t in ts && t.id != id
  {
    if ts == [] then [] else (if ts[0].id == id then [] else [ts[0]]) + Cancel(ts[1..], id)
  }

  lemma {:induction false} IdsCancel(ts: seq<Timer>, id: nat)
    ensures Ids(Cancel(ts, id)) == Without(Ids(ts), id)
  {
    if ts != [] {
      IdsCancel(ts[1..], id);
      assert Ids(ts)[1..] == Ids(ts[1..]);
      var head := if ts[0].id == id then [] else [ts[0]];
      IdsConcat(head, Cancel(ts[1..], id));
    }
  }

  lemma {:induction false} IdsConcat(a: seq<Timer>, b: seq<Timer>)
    ensures Ids(a + b) == Ids(a) + Ids(b)
  {
    var l, r := Ids(a + b), Ids(a) + Ids(b);
    assert |l| == |r|;
    forall k | 0 <= k < |l| ensures l[k] == r[k] {
      if k < |a| { assert (a + b)[k] == a[k]; } else { assert (a + b)[k] == b[k - |a|]; }
    }
  }

  /** The pending timer with id `id`, if there is one. */
  function Lookup(ts: seq<Timer>, id: nat): (r: Option<Timer>)
    ensures r.Some? ==> r.value in ts && r.value.id == id
    ensures r.None? ==> id !in Ids(ts)
  {
    if ts == [] then None
    else if ts[0].id == id then Some(ts[0])
    else
      var rest := Lookup(ts[1..], id);
      assert Ids(ts) == [ts[0].id] + Ids(ts[1..]);
      rest
  }

  /** A particle node appended to the highlight element. */
  datatype LiveParticle = LiveParticle(node: nat, particle: Particle)

  /** `particle.remove()`: the nodes other than `node`, in order. */
  function RemoveNode(ps: seq<LiveParticle>, node: nat): (r: seq<LiveParticle>)
    ensures forall p :: p in r <==> p in ps && p.node != node
  {
    if ps == [] then [] else (if ps[0].node == node then [] else [ps[0]]) + RemoveNode(ps[1..], node)
  }

  /** One entry of the widget's `items` list. */
  datatype NavItem = NavItem(text: string, hasOnSelect: bool)

  // ----- the widget ----------------------------------------------------------

  class Widget {
    const config: Config
    /** whether the highlight (filter) element is mounted */
    const hasFilter: bool

    var items: seq<NavItem>
    var initialActiveIndex: int
    var scale: real

    var activeIndex: int
    /** the browser's pending timers of this widget, in registration order */
    var timers: seq<Timer>
    /** timeoutsRef.current */
    var timeouts: seq<nat>
    var nextTimerId: nat
    /** the particle nodes inside the highlight element */
    var particles: seq<LiveParticle>
    var nextNode: nat
    /** whether the highlight carries its active (glowing) class */
    var glowing: bool
    /** the --time property of the highlight element */
    var bubbleTime: Option<real>
    /** the position last written on the highlight element */
    var box: Option<Box>
    /** the items whose onSelect ran, in order */
    var selections: seq<NavItem>

    /**
     * The registry knows exactly the pending timers, in the order they were
     * registered, and ids and nodes are never reused.
     */
    ghost predicate Valid()
      reads this
    {
      && Ids(timers) == timeouts
      && Distinct(timeouts)
      && (forall x :: x in timeouts ==> x < nextTimerId)
      && (forall p :: p in particles ==> p.node < nextNode)
    }

    /** The active index names an item whenever there is one. */
    predicate ActiveInRange()
      reads this
    {
      |items| > 0 ==> 0 <= activeIndex < |items|
    }

    /** Mounting: the initial index is clamped to the items; nothing is pending. */
    constructor (config: Config, items: seq<NavItem>, initialActiveIndex: int, scale: real, hasFilter: bool)
      ensures Valid() && ActiveInRange()
      ensures this.config == config && this.hasFilter == hasFilter
      ensures this.items == items && this.initialActiveIndex == initialActiveIndex && this.scale == scale
      ensures activeIndex == ClampIndex(initialActiveIndex, |items|)
      ensures timers == [] && timeouts == [] && particles == [] && selections == []
      ensures !glowing && bubbleTime.None? && box.None?
    {
      this.config := config;
      this.hasFilter := hasFilter;
      this.items := items;
      this.initialActiveIndex := initialActiveIndex;
      this.scale := scale;
      activeIndex := ClampIndex(initialActiveIndex, |items|);
      timers, timeouts, nextTimerId := [], [], 0;
      particles, nextNode := [], 0;
      glowing, bubbleTime, box := false, None, None;
      selections := [];
    }

    /**
     * A new render: the effect keyed on the item count re-clamps the current
     * index, then the effect keyed on the initial index and the item count
     * sets the clamped initial index.  When neither changed, neither runs.
     */
    method Rerender(newItems: seq<NavItem>, newInitial: int, newScale: real)
      modifies this`items, this`initialActiveIndex, this`scale, this`activeIndex
      ensures items == newItems && initialActiveIndex == newInitial && scale == newScale
      ensures activeIndex ==
        if |newItems| != |old(items)| || newInitial != old(initialActiveIndex)
        then ClampIndex(newInitial, |newItems|) else old(activeIndex)
      ensures old(ActiveInRange()) ==> ActiveInRange()
    {
      var lengthChanged := |newItems| != |items|;
      var initialChanged := newInitial != initialActiveIndex;
      items, initialActiveIndex, scale := newItems, newInitial, newScale;
      if lengthChanged {
        activeIndex := ClampIndex(activeIndex, |items|);
      }
      if lengthChanged || initialChanged {
        activeIndex := ClampIndex(initialActiveIndex, |items|);
      }
    }

    /** registerTimeout: schedule `action` after `delay` ms and record its id. */
    method RegisterTimeout(delay: real, action: Action) returns (id: nat)
      requires Valid()
      modifies this`timers, this`timeouts, this`nextTimerId
      ensures Valid()
      ensures id == old(nextTimerId) && id !in old(timeouts)
      ensures timers == old(timers) + [Timer(id, delay, action)]
      ensures timeouts == old(timeouts) + [id]
      ensures nextTimerId == old(nextTimerId) + 1
    {
      id := nextTimerId;
      nextTimerId := nextTimerId + 1;
      IdsConcat(timers, [Timer(id, delay, action)]);
      timers := timers + [Timer(id, delay, action)];
      timeouts := timeouts + [id];
      forall i, j | 0 <= i < j < |timeouts| ensures timeouts[i] != timeouts[j] {
        if j < |timeouts| - 1 {
          assert timeouts[i] == old(timeouts)[i] && timeouts[j] == old(timeouts)[j];
        } else {
          assert timeouts[i] in old(timeouts);
        }
      }
    }

    /** The browser drops a firing or cleared timer; the registry forgets its id. */
    method Retire(id: nat)
      requires Valid()
      modifies this`timers, this`timeouts
      ensures Valid()
      ensures timers == Cancel(old(timers), id) && timeouts == Without(old(timeouts), id)
    {
      IdsCancel(timers, id);
      WithoutDistinct(timeouts, id);
      timers := Cancel(timers, id);
      timeouts := Without(timeouts, id);
    }

    /** A spawn timer's callback: append the particle node, light the glow, schedule the node's removal. */
    method SpawnParticle(p: Particle)
      requires Valid()
      modifies this`timers, this`timeouts, this`nextTimerId, this`particles, this`nextNode, this`glowing
      ensures Valid()
      ensures particles == old(particles) + [LiveParticle(old(nextNode), p)] && nextNode == old(nextNode) + 1
      ensures glowing
      ensures timers == old(timers) + [Timer(old(nextTimerId), p.time, RemoveParticle(old(nextNode)))]
      ensures timeouts == old(timeouts) + [old(nextTimerId)]
      ensures nextTimerId == old(nextTimerId) + 1
    {
      var node := nextNode;
      particles := particles + [LiveParticle(node, p)];
      nextNode := nextNode + 1;
      glowing := true;
      var _ := RegisterTimeout(p.time, RemoveParticle(node));
    }

    /**
     * The browser fires the pending timer `id`: its callback runs, and then
     * exactly that id leaves the registry.  An id that is not pending (already
     * fired, or cleared) fires nothing.
     */
    method Fire(id: nat) returns (fired: bool)
      requires Valid()
      modifies this`timers, this`timeouts, this`nextTimerId, this`particles, this`nextNode, this`glowing
      ensures Valid()
      ensures fired == (id in old(timeouts))
      ensures !fired ==>
        && timers == old(timers) && timeouts == old(timeouts) && particles == old(particles) && glowing == old(glowing)
        && nextTimerId == old(nextTimerId) && nextNode == old(nextNode)
      ensures fired ==> var t := Lookup(old(timers), id).value;
        && (t.action.Spawn? ==>
              && particles == old(particles) + [LiveParticle(old(nextNode), t.action.particle)]
              && glowing
              && timers == Cancel(old(timers), id) + [Timer(old(nextTimerId), t.action.particle.time, RemoveParticle(old(nextNode)))]
              && timeouts == Without(old(timeouts), id) + [old(nextTimerId)]
              && nextTimerId == old(nextTimerId) + 1 && nextNode == old(nextNode) + 1)
        && (t.action.RemoveParticle? ==>
              && particles == RemoveNode(old(particles), t.action.node)
              && glowing == old(glowing)
              && timers == Cancel(old(timers), id) && timeouts == Without(old(timeouts), id)
              && nextTimerId == old(nextTimerId) && nextNode == old(nextNode))
        && (t.action.GlowOff? ==>
              && particles == old(particles) && !glowing
              && timers == Cancel(old(timers), id) && timeouts == Without(old(timeouts), id)
              && nextTimerId == old(nextTimerId) && nextNode == old(nextNode))
    {
      var found := Lookup(timers, id);
      if found.None? {
        return false;
      }
      fired := true;
      assert id in Ids(timers);
      // The source runs the callback first and filters the id out after it; as
      // the callback only appends fresh ids, retiring the id first leaves the
      // same registry.
      Retire(id);
      match found.value.action
      case Spawn(p) =>
        SpawnParticle(p);
      case RemoveParticle(n) =>
        particles := RemoveNode(particles, n);
      case GlowOff =>
        glowing := false;
    }

    /** clearParticles: remove every particle node, if the highlight element exists. */
    method ClearParticles()
      requires Valid()
      modifies this`particles
      ensures Valid()
      ensures particles == if hasFilter then [] else old(particles)
    {
      if hasFilter {
        particles := [];
      }
    }

    /** updateEffectPosition: place the highlight over `element`, or do nothing when a part is missing. */
    method UpdateEffectPosition(container: Option<Rect>, element: Option<Rect>)
      modifies this`box
      ensures box == match EffectBox(container, hasFilter, element, scale)
        case Some(b) => Some(b)
        case None => old(box)
    {
      var b := EffectBox(container, hasFilter, element, scale);
      if b.Some? {
        box := b;
      }
    }

    /** Register the spawn timer of particle i of a burst. */
    method ScheduleSpawn(draws: seq<Draws>, first: nat, i: nat)
      requires Valid()
      requires |draws| == config.particleCount && AllValid(draws) && i < config.particleCount
      requires nextTimerId == first + i
      modifies this`timers, this`timeouts, this`nextTimerId
      ensures Valid()
      ensures timers == old(timers) + [SpawnTimer(config, draws, first, i)]
      ensures timeouts == old(timeouts) + [first + i]
      ensures nextTimerId == first + i + 1
    {
      var t := Lifetime(config, draws[i].time);
      var particle := CreateParticle(config, i, t, draws[i]);
      var _ := RegisterTimeout((30 + 12 * i) as real, Spawn(particle));
    }

    /** The loop of makeParticles: register the spawn timers of particles 0 .. particleCount-1. */
    method ScheduleSpawns(draws: seq<Draws>)
      requires Valid()
      requires |draws| == config.particleCount && AllValid(draws)
      modifies this`timers, this`timeouts, this`nextTimerId
      ensures Valid()
      ensures timers == old(timers) + SpawnTimers(config, draws, old(nextTimerId), config.particleCount)
      ensures timeouts == old(timeouts) + Ids(SpawnTimers(config, draws, old(nextTimerId), config.particleCount))
      ensures nextTimerId == old(nextTimerId) + config.particleCount
    {
      var first := nextTimerId;
      for i := 0 to config.particleCount
        invariant Valid()
        invariant nextTimerId == first + i
        invariant timers == old(timers) + SpawnTimers(config, draws, first, i)
        invariant timeouts == old(timeouts) + Ids(SpawnTimers(config, draws, first, i))
      {
        ghost var spawned := SpawnTimers(config, draws, first, i);
        ghost var next := SpawnTimer(config, draws, first, i);
        ScheduleSpawn(draws, first, i);
        assert SpawnTimers(config, draws, first, i + 1) == spawned + [next];
        assert timers == old(timers) + (spawned + [next]);
        IdsConcat(spawned, [next]);
        assert Ids([next]) == [first + i];
        assert timeouts == old(timeouts) + (Ids(spawned) + Ids([next]));
      }
    }

    /**
     * makeParticles: mark the bubble time, take the glow off, register one
     * spawn timer per particle and then the glow-off timer.
     */
    method MakeParticles(draws: seq<Draws>)
      requires Valid()
      requires |draws| == config.particleCount && AllValid(draws)
      modifies this`timers, this`timeouts, this`nextTimerId, this`glowing, this`bubbleTime
      ensures Valid()
      ensures timers == old(timers) + Burst(config, draws, old(nextTimerId))
      ensures timeouts == old(timeouts) + Ids(Burst(config, draws, old(nextTimerId)))
      ensures nextTimerId == old(nextTimerId) + config.particleCount + 1
      ensures bubbleTime == Some(BubbleTime(config)) && !glowing
    {
      bubbleTime := Some(BubbleTime(config));
      glowing := false;
      var first := nextTimerId;
      ScheduleSpawns(draws);
      ghost var spawned := SpawnTimers(config, draws, first, config.particleCount);
      ghost var last := GlowOffTimer(config, first + config.particleCount);
      var _ := RegisterTimeout(BubbleTime(config) + 120.0, GlowOff);
      assert Burst(config, draws, first) == spawned + [last];
      assert timers == old(timers) + (spawned + [last]);
      IdsConcat(spawned, [last]);
      assert Ids([last]) == [first + config.particleCount];
      assert timeouts == old(timeouts) + (Ids(spawned) + Ids([last]));
    }

    /**
     * activateItem: with an item element, make `index` active, move the
     * highlight over it, remove the live particles, start a new burst and
     * call the item's onSelect if it has one.  Timers of earlier bursts stay
     * pending.  Without an element, nothing happens.
     */
    method ActivateItem(element: Option<Rect>, container: Option<Rect>, index: int, item: NavItem, draws: seq<Draws>)
      requires Valid()
      requires |draws| == config.particleCount && AllValid(draws)
      modifies this`activeIndex, this`box, this`particles, this`timers, this`timeouts, this`nextTimerId
      modifies this`glowing, this`bubbleTime, this`selections
      ensures Valid()
      ensures element.None? ==>
        && activeIndex == old(activeIndex) && timers == old(timers) && timeouts == old(timeouts)
        && particles == old(particles) && box == old(box) && selections == old(selections)
        && glowing == old(glowing) && bubbleTime == old(bubbleTime) && nextTimerId == old(nextTimerId)
      ensures element.Some? ==>
        && activeIndex == index
        && box == (match EffectBox(container, hasFilter, element, scale) case Some(b) => Some(b) case None => old(box))
        && selections == old(selections) + (if item.hasOnSelect then [item] else [])
      ensures element.Some? && hasFilter ==>
        && particles == []
        && timers == old(timers) + Burst(config, draws, old(nextTimerId))
        && timeouts == old(timeouts) + Ids(Burst(config, draws, old(nextTimerId)))
        && nextTimerId == old(nextTimerId) + config.particleCount + 1
        && !glowing && bubbleTime == Some(BubbleTime(config))
      ensures element.Some? && !hasFilter ==>
        && particles == old(particles) && timers == old(timers) && timeouts == old(timeouts)
        && nextTimerId == old(nextTimerId) && glowing == old(glowing) && bubbleTime == old(bubbleTime)
      ensures element.Some? && 0 <= index < |items| ==> ActiveInRange()
      ensures element.None? ==> (old(ActiveInRange()) ==> ActiveInRange())
    {
      if element.None? {
        return;
      }
      activeIndex := index;
      UpdateEffectPosition(container, element);
      ClearParticles();
      if hasFilter {
        MakeParticles(draws);
      }
      if item.hasOnSelect {
        selections := selections + [item];
      }
    }

    /**
     * The layout effect and the resize observer: with the list and the
     * container mounted, move the highlight over the active item's element.
     */
    method SyncEffectPosition(listMounted: bool, container: Option<Rect>, itemRects: seq<Rect>)
      modifies this`box
      ensures box ==
        if listMounted && container.Some? && 0 <= activeIndex < |itemRects| && hasFilter
        then EffectBox(container, hasFilter, Some(itemRects[activeIndex]), scale)
        else old(box)
    {
      if !listMounted || container.None? {
        return;
      }
      if 0 <= activeIndex < |itemRects| {
        UpdateEffectPosition(container, Some(itemRects[activeIndex]));
      }
    }

    /**
     * Unmount cleanup: clear every registered timer, empty the registry,
     * then remove the particle nodes.
     */
    method Unmount()
      requires Valid()
      modifies this`timers, this`timeouts, this`particles
      ensures Valid()
      ensures timers == [] && timeouts == []
      ensures particles == if hasFilter then [] else old(particles)
    {
      for i := 0 to |timeouts|
        invariant forall t :: t in timers ==> t in old(timers) && t.id in old(timeouts)[i..]
        invariant timeouts == old(timeouts) && particles == old(particles)
      {
        // window.clearTimeout(timeouts[i])
        ghost var id := timeouts[i];
        timers := Cancel(timers, timeouts[i]);
        forall t | t in timers ensures t.id in timeouts[i + 1..] {
          var k :| i <= k < |timeouts| && timeouts[k] == t.id;
          assert k != i;
          assert timeouts[k] == timeouts[i + 1..][k - i - 1];
        }
      }
      timeouts := [];
      ClearParticles();
    }
  }

  // ----- scenarios -------------------------------------------------------------

  /** Mounting three items with an initial index of 5 makes the last item active. */
  method MountScenario(config: Config) returns (active: int)
    ensures active == 2
  {
    var items := [NavItem("A", true), NavItem("B", true), NavItem("C", true)];
    var w := new Widget(config, items, 5, 1.0, true);
    ClampScenario();
    active := w.activeIndex;
  }

  /**
   * Activating item 1 twice runs its onSelect twice and leaves both bursts
   * pending: the second activation does not cancel the first one's timers.
   */
  method ActivateTwiceScenario(config: Config, first: seq<Draws>, second: seq<Draws>, container: Rect, element: Rect)
    returns (active: int, selected: nat, pending: nat)
    requires |first| == config.particleCount && AllValid(first)
    requires |second| == config.particleCount && AllValid(second)
    ensures active == 1 && selected == 2
    ensures pending == 2 * (config.particleCount + 1)
  {
    var items := [NavItem("A", true), NavItem("B", true), NavItem("C", true)];
    var w := new Widget(config, items, 0, 1.0, true);
    BurstShape(config, first, 0);
    w.ActivateItem(Some(element), Some(container), 1, items[1], first);
    BurstShape(config, second, w.nextTimerId);
    w.ActivateItem(Some(element), Some(container), 1, items[1], second);
    active, selected, pending := w.activeIndex, |w.selections|, |w.timers|;
  }
}
