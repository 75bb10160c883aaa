/**
 The pointer cache of src/Cursor.cpp and the client that is driven only by the
 messages it sends (section 2.2.9.1.1.4 of [MS-RDPBCGR]).

 The server state is described by values of type `Server`; the mutable object that
 is proved against this description is in Cursor.dfy.
 */
module CursorCache {
  import opened Wrappers

  // ---------------------------------------------------------------- messages

  datatype Point = Point(x: int, y: int)

  /** A cursor image in ARGB32: its scanlines from top to bottom. */
  datatype Image = NullImage | Image(width: nat, height: nat, scanlines: seq<seq<int>>)

  /** What `CursorUpdate::operator==` compares. */
  datatype Shape = Shape(hotspot: Point, image: Image)

  datatype Message =
    | PointerNew(cacheIndex: nat, hotspot: Point, width: nat, height: nat, xorMask: seq<seq<int>>)
    | PointerLarge(cacheIndex: nat, hotspot: Point, width: nat, height: nat, xorMask: seq<seq<int>>)
    | PointerCached(cacheIndex: nat)
    | PointerSystem(hidden: bool)

  const MAX_POINTER_SIZE := 384
  const MAX_SMALL_POINTER_SIZE := 96

  function Reverse<T>(s: seq<T>): (r: seq<T>)
    ensures |r| == |s|
    ensures forall i :: 0 <= i < |s| ==> r[i] == s[|s| - 1 - i]
  {
    seq(|s|, i requires 0 <= i < |s| => s[|s| - 1 - i])
  }

  predicate Displayable(u: Shape) {
    u.image.Image? && u.image.width <= MAX_POINTER_SIZE && u.image.height <= MAX_POINTER_SIZE
  }

  /** The message that puts a shape into a cache slot; masks travel bottom-up. */
  function StoreMessage(u: Shape, id: nat): Message
    requires u.image.Image?
  {
    var hotspot := Point(U16(u.hotspot.x), U16(u.hotspot.y));
    var mask := Reverse(u.image.scanlines);
    if u.image.width < MAX_SMALL_POINTER_SIZE && u.image.height < MAX_SMALL_POINTER_SIZE
    then PointerNew(id, hotspot, u.image.width, u.image.height, mask)
    else PointerLarge(id, hotspot, u.image.width, u.image.height, mask)
  }

  // ------------------------------------------------------------------ client

  datatype Shown = ShowsNothing | ShowsDefault | ShowsPointer(shape: Shape)

  /** `fault` records a slot the client does not have, or a new pointer of more than 96 by 96 pixels. */
  datatype Client = Client(capacity: nat, cache: map<nat, Shape>, shown: Shown, fault: bool)

  function Receive(c: Client, m: Message): Client {
    match m
    case PointerNew(i, hotspot, w, h, mask) =>
      if w > 96 || h > 96 then c.(fault := true) else Store(c, i, Shape(hotspot, Image(w, h, Reverse(mask))))
    case PointerLarge(i, hotspot, w, h, mask) => Store(c, i, Shape(hotspot, Image(w, h, Reverse(mask))))
    case PointerCached(i) =>
      if i in c.cache then c.(shown := ShowsPointer(c.cache[i])) else c.(fault := true)
    case PointerSystem(hidden) => c.(shown := if hidden then ShowsNothing else ShowsDefault)
  }

  function Store(c: Client, i: nat, shape: Shape): Client {
    if i < c.capacity
    then c.(cache := c.cache[i := shape], shown := ShowsPointer(shape))
    else c.(fault := true)
  }

  function ReceiveAll(c: Client, ms: seq<Message>): Client
    decreases |ms|
  {
    if ms == [] then c else ReceiveAll(Receive(c, ms[0]), ms[1..])
  }

  /** A shape as the client sees it: hotspots are 16-bit on the wire. */
  function OnWire(u: Shape): Shape {
    u.(hotspot := Point(U16(u.hotspot.x), U16(u.hotspot.y)))
  }

  /** Storing a shape and selecting its slot shows it, unflipped, whichever message carries it. */
  lemma {:induction false} StoredShapeIsShown(c: Client, u: Shape, id: nat)
    requires u.image.Image? && id < c.capacity
    ensures StoreMessage(u, id).PointerLarge? <==> u.image.width >= 96 || u.image.height >= 96
    ensures ReceiveAll(c, [StoreMessage(u, id), PointerCached(id)])
            == c.(cache := c.cache[id := OnWire(u)], shown := ShowsPointer(OnWire(u)))
  {
    var m := StoreMessage(u, id);
    assert Reverse(Reverse(u.image.scanlines)) == u.image.scanlines;
    var c1 := Receive(c, m);
    assert c1 == c.(cache := c.cache[id := OnWire(u)], shown := ShowsPointer(OnWire(u)));
    assert [m, PointerCached(id)][1..] == [PointerCached(id)];
    assert ReceiveAll(c1, [PointerCached(id)]) == ReceiveAll(Receive(c1, PointerCached(id)), []);
  }

  // ------------------------------------------------------------------ server

  datatype CursorType = Hidden | SystemDefault | ImageCursor

  datatype Entry = Entry(shape: Shape, cacheId: nat, lastUsed: int)

  /** `lastUsedCursor` is the key of the entry the source holds a pointer to. */
  datatype Server = Server(cursorType: CursorType, lastUsedCursor: Option<nat>, cache: map<nat, Entry>)

  const INITIAL := Server(SystemDefault, None, map[])

  /** One call of `update`: the request, the clock reading and the hash entry `min_element` picks. */
  datatype Call = Call(streaming: bool, request: Shape, now: int, victim: nat)

  ghost predicate IsOldest(cache: map<nat, Entry>, k: nat) {
    k in cache && forall j :: j in cache ==> cache[k].lastUsed <= cache[j].lastUsed
  }

  /** The cached slot that holds a shape. */
  ghost function Lookup(cache: map<nat, Entry>, u: Shape): (r: Option<nat>)
    ensures r.Some? ==> r.value in cache && cache[r.value].shape == u
    ensures r.None? ==> forall k :: k in cache ==> cache[k].shape != u
  {
    if k :| k in cache && cache[k].shape == u then Some(k) else None
  }

  function SetCursorType(s: Server, t: CursorType): (Server, seq<Message>) {
    if s.cursorType == t then (s, [])
    else if t == ImageCursor then (s.(cursorType := t), [])
    else (s.(cursorType := t, lastUsedCursor := None), [PointerSystem(t == Hidden)])
  }

  function Touch(s: Server, k: nat, now: int): Server
    requires k in s.cache
  {
    s.(lastUsedCursor := Some(k), cache := s.cache[k := s.cache[k].(lastUsed := now)])
  }

  ghost predicate MustEvict(s: Server, capacity: nat, u: Shape) {
    Displayable(u) && |s.cache| >= capacity && Lookup(s.cache, u).None?
  }

  ghost function Show(s: Server, capacity: nat, u: Shape, now: int, victim: nat): (Server, seq<Message>)
    requires Displayable(u)
    requires MustEvict(s, capacity, u) ==> IsOldest(s.cache, victim)
  {
    if s.lastUsedCursor.Some? && s.lastUsedCursor.value in s.cache
       && s.cache[s.lastUsedCursor.value].shape == u then
      (Touch(s, s.lastUsedCursor.value, now), [])
    else match Lookup(s.cache, u)
      case Some(k) => (Touch(s, k, now), [PointerCached(s.cache[k].cacheId)])
      case None =>
        var evict := |s.cache| >= capacity;
        var id := if evict then s.cache[victim].cacheId else |s.cache|;
        var kept := if evict then s.cache - {victim} else s.cache;
        (s.(lastUsedCursor := Some(id), cache := kept[id := Entry(u, id, now)]),
         [StoreMessage(u, id), PointerCached(id)])
  }

  ghost predicate ValidCall(s: Server, capacity: nat, c: Call) {
    c.streaming && MustEvict(s, capacity, c.request) ==> IsOldest(s.cache, c.victim)
  }

  ghost function Update(s: Server, capacity: nat, c: Call): (Server, seq<Message>)
    requires ValidCall(s, capacity, c)
  {
    if !c.streaming || c.request.image.NullImage? then (s, [])
    else if !Displayable(c.request) then SetCursorType(s, SystemDefault)
    else Show(SetCursorType(s, ImageCursor).0, capacity, c.request, c.now, c.victim)
  }

  // --------------------------------------------- server and client stay in step

  /** Slots are exactly 0..n-1, n is within the capacity, and no shape is held twice. */
  ghost predicate WellFormed(cache: map<nat, Entry>, capacity: nat) {
    && |cache| <= capacity
    && SlotsInRow(cache)
    && (forall k :: k in cache ==> cache[k].cacheId == k && Displayable(cache[k].shape))
    && NoShapeTwice(cache)
  }

  ghost predicate NoShapeTwice(cache: map<nat, Entry>) {
    forall j, k :: j in cache && k in cache && cache[j].shape == cache[k].shape ==> j == k
  }

  ghost predicate SameCache(cache: map<nat, Entry>, c: Client) {
    && WellFormed(cache, c.capacity)
    && !c.fault
    && c.cache.Keys == cache.Keys
    && (forall k :: k in cache ==> c.cache[k] == OnWire(cache[k].shape))
  }

  /** What is on the client's screen is what the server believes it shows. */
  ghost predicate SameShown(s: Server, c: Client) {
    match s.lastUsedCursor
    case None => c.shown == ShowsDefault
    case Some(k) => k in s.cache && c.shown == ShowsPointer(OnWire(s.cache[k].shape))
  }

  ghost predicate Agrees(s: Server, c: Client) {
    && SameCache(s.cache, c)
    && SameShown(s, c)
    && TypeMatches(s)
  }

  ghost predicate TypeMatches(s: Server) {
    s.cursorType == if s.lastUsedCursor.Some? then ImageCursor else SystemDefault
  }

  lemma {:induction false} TouchKeepsCache(s: Server, c: Client, k: nat, now: int)
    requires SameCache(s.cache, c) && k in s.cache
    ensures SameCache(Touch(s, k, now).cache, c)
  {
    var s' := Touch(s, k, now);
    assert s'.cache.Keys == s.cache.Keys;
    assert forall j :: j in s.cache ==> s'.cache[j].shape == s.cache[j].shape;
  }

  lemma {:induction false} NewShapeIsNotTwice(cache: map<nat, Entry>, entry: Entry, id: nat)
    requires NoShapeTwice(cache)
    requires forall k :: k in cache ==> cache[k].shape != entry.shape
    ensures NoShapeTwice(cache[id := entry])
  {
    var cache' := cache[id := entry];
    forall j, k | j in cache' && k in cache' && cache'[j].shape == cache'[k].shape
      ensures j == k
    {
      if j != id && k != id {
        assert cache'[j] == cache[j] && cache'[k] == cache[k];
      }
    }
  }

  ghost predicate SlotsInRow(cache: map<nat, Entry>) {
    forall k :: k in cache <==> 0 <= k < |cache|
  }

  lemma {:induction false} StoreKeepsRow(cache: map<nat, Entry>, entry: Entry, id: nat)
    requires SlotsInRow(cache) && id <= |cache|
    ensures var cache' := cache[id := entry];
            SlotsInRow(cache') && |cache'| == if id == |cache| then id + 1 else |cache|
  {
    var cache' := cache[id := entry];
    var n := |cache|;
    assert cache'.Keys == cache.Keys + {id};
    assert |cache'| == |cache'.Keys| && |cache.Keys| == n;
    if id < n {
      assert cache'.Keys == cache.Keys;
      assert forall k :: k in cache' <==> k in cache.Keys;
    } else {
      assert id !in cache.Keys;
      assert |cache'| == n + 1;
      assert forall k :: k in cache' <==> k in cache.Keys || k == n;
    }
  }

  lemma {:induction false} StoreKeepsForm(cache: map<nat, Entry>, capacity: nat, u: Shape, now: int, id: nat)
    requires WellFormed(cache, capacity) && Displayable(u) && id < capacity && id <= |cache|
    requires forall k :: k in cache ==> cache[k].shape != u
    ensures WellFormed(cache[id := Entry(u, id, now)], capacity)
  {
    StoreKeepsRow(cache, Entry(u, id, now), id);
    NewShapeIsNotTwice(cache, Entry(u, id, now), id);
  }

  lemma {:induction false} StoreKeepsCache(cache: map<nat, Entry>, c: Client, u: Shape, now: int, id: nat)
    requires SameCache(cache, c) && Displayable(u) && id < c.capacity && id <= |cache|
    requires forall k :: k in cache ==> cache[k].shape != u
    ensures SameCache(cache[id := Entry(u, id, now)],
                      c.(cache := c.cache[id := OnWire(u)], shown := ShowsPointer(OnWire(u))))
  {
    var cache' := cache[id := Entry(u, id, now)];
    StoreKeepsForm(cache, c.capacity, u, now, id);
    var held := c.cache[id := OnWire(u)];
    assert held.Keys == cache'.Keys;
    assert forall k :: k in cache' ==> held[k] == OnWire(cache'[k].shape);
  }

  lemma {:induction false} SelectKeepsAgreement(s: Server, c: Client, k: nat, now: int)
    requires SameCache(s.cache, c) && k in s.cache && s.cursorType == ImageCursor
    ensures var c' := ReceiveAll(c, [PointerCached(k)]);
            Agrees(Touch(s, k, now), c') && c' == c.(shown := ShowsPointer(OnWire(s.cache[k].shape)))
  {
    TouchKeepsCache(s, c, k, now);
    assert [PointerCached(k)][1..] == [];
    assert ReceiveAll(c, [PointerCached(k)]) == Receive(c, PointerCached(k));
  }

  lemma {:induction false} InsertKeepsAgreement(s: Server, c: Client, u: Shape, now: int, id: nat)
    requires SameCache(s.cache, c) && s.cursorType == ImageCursor
    requires Displayable(u) && id < c.capacity && id <= |s.cache|
    requires forall k :: k in s.cache ==> s.cache[k].shape != u
    ensures var c' := ReceiveAll(c, [StoreMessage(u, id), PointerCached(id)]);
            Agrees(s.(lastUsedCursor := Some(id), cache := s.cache[id := Entry(u, id, now)]), c')
            && c' == c.(cache := c.cache[id := OnWire(u)], shown := ShowsPointer(OnWire(u)))
  {
    StoredShapeIsShown(c, u, id);
    StoreKeepsCache(s.cache, c, u, now, id);
  }

  lemma {:induction false} ShowKeepsAgreement(s: Server, c: Client, u: Shape, now: int, victim: nat)
    requires SameCache(s.cache, c) && SameShown(s, c) && s.cursorType == ImageCursor
    requires c.capacity > 0 && Displayable(u)
    requires MustEvict(s, c.capacity, u) ==> IsOldest(s.cache, victim)
    ensures var (s', ms) := Show(s, c.capacity, u, now, victim);
            var c' := ReceiveAll(c, ms);
            Agrees(s', c') && c'.shown == ShowsPointer(OnWire(u)) && c'.capacity == c.capacity
  {
    if s.lastUsedCursor.Some? && s.cache[s.lastUsedCursor.value].shape == u {
      TouchKeepsCache(s, c, s.lastUsedCursor.value, now);
    } else if Lookup(s.cache, u).Some? {
      SelectKeepsAgreement(s, c, Lookup(s.cache, u).value, now);
    } else {
      var full := |s.cache| >= c.capacity;
      var id := if full then victim else |s.cache|;
      var entry := Entry(u, id, now);
      assert full ==> (s.cache - {victim})[victim := entry] == s.cache[victim := entry];
      InsertKeepsAgreement(s, c, u, now, id);
    }
  }

  /** One call keeps the caches equal and leaves the requested shape, or the default, on screen. */
  lemma {:induction false} UpdateKeepsAgreement(s: Server, c: Client, call: Call)
    requires Agrees(s, c) && c.capacity > 0 && ValidCall(s, c.capacity, call)
    ensures var (s', ms) := Update(s, c.capacity, call);
            var c' := ReceiveAll(c, ms);
            && Agrees(s', c') && c'.capacity == c.capacity
            && (if !call.streaming || call.request.image.NullImage? then c' == c
                else c'.shown == if Displayable(call.request)
                                 then ShowsPointer(OnWire(call.request)) else ShowsDefault)
  {
    if call.streaming && call.request.image.Image? {
      if Displayable(call.request) {
        ShowKeepsAgreement(SetCursorType(s, ImageCursor).0, c, call.request, call.now, call.victim);
      } else {
        DefaultKeepsAgreement(s, c);
      }
    }
  }

  /** A pointer too large to send is replaced by the system's. */
  lemma {:induction false} DefaultKeepsAgreement(s: Server, c: Client)
    requires Agrees(s, c)
    ensures var (s', ms) := SetCursorType(s, SystemDefault);
            var c' := ReceiveAll(c, ms);
            Agrees(s', c') && c'.capacity == c.capacity && c'.shown == ShowsDefault
  {
    if s.cursorType != SystemDefault {
      assert [PointerSystem(false)][1..] == [];
      assert ReceiveAll(c, [PointerSystem(false)]) == Receive(c, PointerSystem(false));
    }
  }

  // -------------------------------------------------------------------- runs

  ghost predicate ValidRun(s: Server, capacity: nat, calls: seq<Call>)
    decreases |calls|
  {
    calls == [] ||
    (ValidCall(s, capacity, calls[0]) && ValidRun(Update(s, capacity, calls[0]).0, capacity, calls[1..]))
  }

  ghost function Run(s: Server, capacity: nat, calls: seq<Call>): (Server, seq<Message>)
    requires ValidRun(s, capacity, calls)
    decreases |calls|
  {
    if calls == [] then (s, [])
    else
      var (s1, ms) := Update(s, capacity, calls[0]);
      var (s2, rest) := Run(s1, capacity, calls[1..]);
      (s2, ms + rest)
  }

  lemma {:induction false} ReceiveInOrder(c: Client, a: seq<Message>, b: seq<Message>)
    ensures ReceiveAll(c, a + b) == ReceiveAll(ReceiveAll(c, a), b)
    decreases |a|
  {
    if a == [] {
      assert a + b == b;
    } else {
      assert (a + b)[0] == a[0] && (a + b)[1..] == a[1..] + b;
      ReceiveInOrder(Receive(c, a[0]), a[1..], b);
    }
  }

  /** Whatever is requested, at whatever clock readings, server and client agree at the end. */
  lemma {:induction false} CachesAgreeInEveryRun(s: Server, c: Client, calls: seq<Call>)
    requires Agrees(s, c) && c.capacity > 0 && ValidRun(s, c.capacity, calls)
    ensures Agrees(Run(s, c.capacity, calls).0, ReceiveAll(c, Run(s, c.capacity, calls).1))
    decreases |calls|
  {
    if calls != [] {
      var (s1, ms) := Update(s, c.capacity, calls[0]);
      UpdateKeepsAgreement(s, c, calls[0]);
      CachesAgreeInEveryRun(s1, ReceiveAll(c, ms), calls[1..]);
      ReceiveInOrder(c, ms, Run(s1, c.capacity, calls[1..]).1);
    }
  }

  // ------------------------------------------------------- least recently used

  datatype Slot = Slot(shape: Shape, index: nat)

  /** The reference: a list of slots, most recently requested first. */
  datatype Recency = Recency(slots: seq<Slot>, showing: bool)

  function IndexOf(slots: seq<Slot>, u: Shape): (i: nat)
    ensures i <= |slots|
    ensures i < |slots| ==> slots[i].shape == u
    ensures forall j :: 0 <= j < i ==> slots[j].shape != u
  {
    if slots == [] || slots[0].shape == u then 0 else 1 + IndexOf(slots[1..], u)
  }

  function MoveToFront(slots: seq<Slot>, i: nat): (r: seq<Slot>)
    requires i < |slots|
    ensures |r| == |slots|
    ensures forall j :: 0 <= j < |r| ==> r[j] == slots[if j == 0 then i else if j <= i then j - 1 else j]
  {
    [slots[i]] + slots[..i] + slots[i + 1..]
  }

  function Request(r: Recency, capacity: nat, u: Shape): (Recency, seq<Message>)
    requires capacity > 0 && u.image.Image?
  {
    var i := IndexOf(r.slots, u);
    if i == 0 && r.slots != [] && r.showing then (r, [])
    else if i < |r.slots| then
      (Recency(MoveToFront(r.slots, i), true), [PointerCached(r.slots[i].index)])
    else if |r.slots| >= capacity then
      var last := r.slots[|r.slots| - 1];
      (Recency([Slot(u, last.index)] + r.slots[..|r.slots| - 1], true),
       [StoreMessage(u, last.index), PointerCached(last.index)])
    else
      (Recency([Slot(u, |r.slots|)] + r.slots, true),
       [StoreMessage(u, |r.slots|), PointerCached(|r.slots|)])
  }

  function ReferenceUpdate(r: Recency, capacity: nat, c: Call): (Recency, seq<Message>)
    requires capacity > 0
  {
    if !c.streaming || c.request.image.NullImage? then (r, [])
    else if Displayable(c.request) then Request(r, capacity, c.request)
    else (r.(showing := false), if r.showing then [PointerSystem(false)] else [])
  }

  /** The list holds the server's entries in order of decreasing timestamp. */
  ghost predicate Represents(r: Recency, s: Server) {
    && |r.slots| == |s.cache|
    && (forall i :: 0 <= i < |r.slots| ==>
          r.slots[i].index in s.cache && s.cache[r.slots[i].index].shape == r.slots[i].shape)
    && (forall i, j :: 0 <= i < j < |r.slots| ==>
          s.cache[r.slots[i].index].lastUsed > s.cache[r.slots[j].index].lastUsed)
    && (r.showing <==> s.lastUsedCursor.Some?)
    && (r.showing ==> r.slots != [] && s.lastUsedCursor.value == r.slots[0].index)
  }

  ghost predicate ClockIsAhead(s: Server, now: int) {
    forall k :: k in s.cache ==> s.cache[k].lastUsed < now
  }

  lemma {:induction false} SlotsCoverCache(r: Recency, s: Server, k: nat)
    requires Represents(r, s) && k in s.cache
    ensures exists i :: 0 <= i < |r.slots| && r.slots[i].index == k
  {
    if forall i :: 0 <= i < |r.slots| ==> r.slots[i].index != k {
      var used := set i | 0 <= i < |r.slots| :: r.slots[i].index;
      DistinctSlots(r.slots);
      assert used <= s.cache.Keys - {k};
      SubsetSize(used, s.cache.Keys - {k});
      assert false;
    }
  }

  lemma {:induction false} DistinctSlots(slots: seq<Slot>)
    requires forall i, j :: 0 <= i < j < |slots| ==> slots[i].index != slots[j].index
    ensures |set i | 0 <= i < |slots| :: slots[i].index| == |slots|
  {
    var all := set i | 0 <= i < |slots| :: slots[i].index;
    if slots == [] {
      assert all == {};
    } else {
      var n := |slots| - 1;
      var init := slots[..n];
      var most := set i | 0 <= i < |init| :: init[i].index;
      DistinctSlots(init);
      assert forall i :: 0 <= i < n ==> init[i] == slots[i];
      assert all == most + {slots[n].index};
    }
  }

  lemma {:induction false} HitRefines(r: Recency, s: Server, i: nat, now: int)
    requires Represents(r, s) && ClockIsAhead(s, now) && i < |r.slots|
    ensures Represents(Recency(MoveToFront(r.slots, i), true), Touch(s, r.slots[i].index, now))
  {
    var k := r.slots[i].index;
    var s' := Touch(s, k, now);
    assert s'.cache.Keys == s.cache.Keys;
    assert forall j :: 0 <= j < |r.slots| && j != i ==> r.slots[j].index != k;
  }

  /** Pushing a new entry in front, over the last slot when the cache is full. */
  lemma {:induction false} MissRefines(r: Recency, s: Server, capacity: nat, u: Shape, now: int, id: nat)
    requires Represents(r, s) && ClockIsAhead(s, now)
    requires if |r.slots| >= capacity > 0 then id == r.slots[|r.slots| - 1].index else id !in s.cache
    ensures var kept := if |r.slots| >= capacity > 0 then r.slots[..|r.slots| - 1] else r.slots;
            Represents(Recency([Slot(u, id)] + kept, true),
                       Server(s.cursorType, Some(id), s.cache[id := Entry(u, id, now)]))
  {
    var cache' := s.cache[id := Entry(u, id, now)];
    if |r.slots| >= capacity > 0 {
      assert cache'.Keys == s.cache.Keys;
    } else {
      assert cache'.Keys == s.cache.Keys + {id};
      assert |cache'.Keys| == |s.cache.Keys| + 1;
    }
  }

  /** With a clock that has moved on, one scan of the timestamps does what one list operation does. */
  lemma {:induction false} RequestRefines(r: Recency, s: Server, capacity: nat, u: Shape, now: int, victim: nat)
    requires capacity > 0 && Displayable(u) && WellFormed(s.cache, capacity)
    requires s.cursorType == ImageCursor && Represents(r, s) && ClockIsAhead(s, now)
    requires MustEvict(s, capacity, u) ==> IsOldest(s.cache, victim)
    ensures var (s', ms) := Show(s, capacity, u, now, victim);
            var (r', ns) := Request(r, capacity, u);
            Represents(r', s') && ms == ns
  {
    var i := IndexOf(r.slots, u);
    if i < |r.slots| {
      HitIsTouch(r, s, capacity, u, now, victim);
      HitRefines(r, s, i, now);
      assert MoveToFront(r.slots, 0) == r.slots;
    } else {
      MissIsInsert(r, s, capacity, u, now, victim);
      var id := if |r.slots| >= capacity then victim else |s.cache|;
      MissRefines(r, s, capacity, u, now, id);
    }
  }

  lemma {:induction false} HitIsTouch(r: Recency, s: Server, capacity: nat, u: Shape, now: int, victim: nat)
    requires Displayable(u) && WellFormed(s.cache, capacity) && Represents(r, s)
    requires IndexOf(r.slots, u) < |r.slots|
    requires MustEvict(s, capacity, u) ==> IsOldest(s.cache, victim)
    ensures var i := IndexOf(r.slots, u);
            var k := r.slots[i].index;
            Show(s, capacity, u, now, victim)
            == (Touch(s, k, now), if r.showing && i == 0 then [] else [PointerCached(k)])
  {
    var i := IndexOf(r.slots, u);
    assert Lookup(s.cache, u) == Some(r.slots[i].index);
  }

  /** A shape the list lacks is not in the cache, and the slot to reuse is the last of the list. */
  lemma {:induction false} MissIsInsert(r: Recency, s: Server, capacity: nat, u: Shape, now: int, victim: nat)
    requires capacity > 0 && Displayable(u) && WellFormed(s.cache, capacity) && Represents(r, s)
    requires IndexOf(r.slots, u) == |r.slots|
    requires MustEvict(s, capacity, u) ==> IsOldest(s.cache, victim)
    ensures var full := |r.slots| >= capacity;
            var id := if full then victim else |s.cache|;
            && (if full then id == r.slots[|r.slots| - 1].index else id !in s.cache)
            && Show(s, capacity, u, now, victim)
               == (s.(lastUsedCursor := Some(id), cache := s.cache[id := Entry(u, id, now)]),
                   [StoreMessage(u, id), PointerCached(id)])
  {
    forall k | k in s.cache
      ensures s.cache[k].shape != u
    {
      SlotsCoverCache(r, s, k);
    }
    if |r.slots| >= capacity {
      SlotsCoverCache(r, s, victim);
      var i :| 0 <= i < |r.slots| && r.slots[i].index == victim;
      assert s.cache[r.slots[|r.slots| - 1].index].lastUsed >= s.cache[victim].lastUsed;
      var entry := Entry(u, victim, now);
      assert (s.cache - {victim})[victim := entry] == s.cache[victim := entry];
    }
  }

  lemma {:induction false} ClockStaysAhead(s: Server, capacity: nat, c: Call)
    requires ValidCall(s, capacity, c) && ClockIsAhead(s, c.now)
    ensures ClockIsAhead(Update(s, capacity, c).0, c.now + 1)
  {
  }

  lemma {:induction false} UpdateRefines(r: Recency, s: Server, capacity: nat, c: Call)
    requires capacity > 0 && WellFormed(s.cache, capacity) && TypeMatches(s) && ValidCall(s, capacity, c)
    requires Represents(r, s) && ClockIsAhead(s, c.now)
    ensures var (s', ms) := Update(s, capacity, c);
            var (r', ns) := ReferenceUpdate(r, capacity, c);
            Represents(r', s') && ms == ns && ClockIsAhead(s', c.now + 1)
  {
    ClockStaysAhead(s, capacity, c);
    if c.streaming && Displayable(c.request) {
      RequestRefines(r, SetCursorType(s, ImageCursor).0, capacity, c.request, c.now, c.victim);
    }
  }

  ghost function ReferenceRun(r: Recency, capacity: nat, calls: seq<Call>): (Recency, seq<Message>)
    requires capacity > 0
    decreases |calls|
  {
    if calls == [] then (r, [])
    else
      var (r1, ms) := ReferenceUpdate(r, capacity, calls[0]);
      var (r2, rest) := ReferenceRun(r1, capacity, calls[1..]);
      (r2, ms + rest)
  }

  predicate StrictlyIncreasingClock(calls: seq<Call>) {
    forall i, j :: 0 <= i < j < |calls| ==> calls[i].now < calls[j].now
  }

  /** Over every run with a strictly increasing clock the two send the same messages. */
  lemma {:induction false} CacheRefinesRecencyList(r: Recency, s: Server, c: Client, calls: seq<Call>)
    requires Agrees(s, c) && c.capacity > 0 && ValidRun(s, c.capacity, calls)
    requires Represents(r, s) && StrictlyIncreasingClock(calls)
    requires calls != [] ==> ClockIsAhead(s, calls[0].now)
    ensures Represents(ReferenceRun(r, c.capacity, calls).0, Run(s, c.capacity, calls).0)
    ensures ReferenceRun(r, c.capacity, calls).1 == Run(s, c.capacity, calls).1
    decreases |calls|
  {
    if calls != [] {
      var (s1, ms) := Update(s, c.capacity, calls[0]);
      UpdateRefines(r, s, c.capacity, calls[0]);
      UpdateKeepsAgreement(s, c, calls[0]);
      CacheRefinesRecencyList(ReferenceUpdate(r, c.capacity, calls[0]).0, s1, ReceiveAll(c, ms), calls[1..]);
    }
  }

  // ------------------------------------- the recency list is the request history

  function Without(shapes: seq<Shape>, u: Shape): (r: seq<Shape>)
    ensures u !in r
  {
    if shapes == [] then []
    else if shapes[0] == u then Without(shapes[1..], u)
    else [shapes[0]] + Without(shapes[1..], u)
  }

  /** The distinct shapes of a history, the one requested last coming first. */
  function MostRecent(history: seq<Shape>): seq<Shape> {
    if history == [] then []
    else
      var n := |history| - 1;
      [history[n]] + Without(MostRecent(history[..n]), history[n])
  }

  /** The requests of a run that ask for a pointer to be shown. */
  function Requests(calls: seq<Call>): seq<Shape> {
    if calls == [] then []
    else
      var n := |calls| - 1;
      var c := calls[n];
      Requests(calls[..n]) + if c.streaming && Displayable(c.request) then [c.request] else []
  }

  function Shapes(slots: seq<Slot>): (r: seq<Shape>)
    ensures |r| == |slots|
    ensures forall i :: 0 <= i < |r| ==> r[i] == slots[i].shape
  {
    seq(|slots|, i requires 0 <= i < |slots| => slots[i].shape)
  }

  function Take(s: seq<Shape>, n: nat): seq<Shape> {
    if n <= |s| then s[..n] else s
  }

  predicate NoRepeats(s: seq<Shape>) {
    forall i, j :: 0 <= i < j < |s| ==> s[i] != s[j]
  }

  lemma {:induction false} WithoutAbsent(s: seq<Shape>, u: Shape)
    requires u !in s
    ensures Without(s, u) == s
  {
    if s != [] {
      assert s[0] != u;
      WithoutAbsent(s[1..], u);
    }
  }

  lemma {:induction false} WithoutAt(s: seq<Shape>, i: nat)
    requires i < |s| && NoRepeats(s)
    ensures Without(s, s[i]) == s[..i] + s[i + 1..]
  {
    var u := s[i];
    if i == 0 {
      assert u !in s[1..];
      WithoutAbsent(s[1..], u);
      assert s[..0] + s[1..] == s[1..];
    } else {
      assert s[1..][i - 1] == u;
      WithoutAt(s[1..], i - 1);
      assert s[0] != u;
      assert s[..i] + s[i + 1..] == [s[0]] + (s[1..][..i - 1] + s[1..][i..]);
    }
  }

  lemma {:induction false} MostRecentHasNoRepeats(history: seq<Shape>)
    ensures NoRepeats(MostRecent(history))
  {
    if history != [] {
      var n := |history| - 1;
      MostRecentHasNoRepeats(history[..n]);
      var m := MostRecent(history[..n]);
      if history[n] in m {
        var i :| 0 <= i < |m| && m[i] == history[n];
        WithoutAt(m, i);
      } else {
        WithoutAbsent(m, history[n]);
      }
    }
  }

  lemma {:induction false} ShapesOfMoved(slots: seq<Slot>, i: nat)
    requires i < |slots|
    ensures var before := Shapes(slots);
            Shapes(MoveToFront(slots, i)) == [before[i]] + before[..i] + before[i + 1..]
  {
    var moved := MoveToFront(slots, i);
    assert forall j :: 0 <= j < |moved| ==> Shapes(moved)[j] == moved[j].shape;
  }

  lemma {:induction false} HitKeepsMostRecent(slots: seq<Slot>, capacity: nat, recent: seq<Shape>, i: nat)
    requires i < |slots| && NoRepeats(recent) && Shapes(slots) == Take(recent, capacity)
    ensures Shapes(MoveToFront(slots, i)) == Take([recent[i]] + Without(recent, recent[i]), capacity)
  {
    ShapesOfMoved(slots, i);
    WithoutAt(recent, i);
    var n := |slots|;
    assert recent[..n][..i] == recent[..i];
    assert recent[..n][i + 1..] == recent[i + 1..n];
    assert [recent[i]] + (recent[..i] + recent[i + 1..]) == [recent[i]] + recent[..i] + recent[i + 1..n] + recent[n..];
  }

  lemma {:induction false} WithoutPrefix(s: seq<Shape>, u: Shape, n: nat)
    requires NoRepeats(s) && n <= |s| && u !in s[..n]
    ensures var rest := Without(s, u);
            |rest| >= n && rest[..n] == s[..n] && |s| - 1 <= |rest| && (n == |s| ==> rest == s)
  {
    if u in s {
      var j :| 0 <= j < |s| && s[j] == u;
      assert forall i :: 0 <= i < n ==> s[i] in s[..n];
      WithoutAt(s, j);
    } else {
      WithoutAbsent(s, u);
    }
  }

  lemma {:induction false} TakeAfterFirst(u: Shape, rest: seq<Shape>, n: nat)
    requires n > 0
    ensures Take([u] + rest, n) == [u] + Take(rest, n - 1)
  {
  }

  lemma {:induction false} ShapesOfPushed(slot: Slot, kept: seq<Slot>)
    ensures Shapes([slot] + kept) == [slot.shape] + Shapes(kept)
  {
  }

  lemma {:induction false} ShapesOfPrefix(slots: seq<Slot>, n: nat)
    requires n <= |slots|
    ensures Shapes(slots[..n]) == Shapes(slots)[..n]
  {
  }

  lemma {:induction false} MissKeepsMostRecent(slots: seq<Slot>, capacity: nat, recent: seq<Shape>, u: Shape, id: nat)
    requires capacity > 0 && NoRepeats(recent) && Shapes(slots) == Take(recent, capacity)
    requires u !in Shapes(slots)
    ensures var kept := if |slots| >= capacity then slots[..|slots| - 1] else slots;
            Shapes([Slot(u, id)] + kept) == Take([u] + Without(recent, u), capacity)
  {
    var n := |slots|;
    WithoutPrefix(recent, u, n);
    TakeAfterFirst(u, Without(recent, u), capacity);
    var m := if n >= capacity then n - 1 else n;
    ShapesOfPushed(Slot(u, id), slots[..m]);
    ShapesOfPrefix(slots, m);
    assert slots[..n] == slots;
    assert recent[..n][..m] == Without(recent, u)[..m];
  }

  /** A request keeps the list equal to the `capacity` most recent distinct shapes. */
  lemma {:induction false} RequestKeepsMostRecent(r: Recency, capacity: nat, history: seq<Shape>, u: Shape)
    requires capacity > 0 && u.image.Image?
    requires Shapes(r.slots) == Take(MostRecent(history), capacity)
    ensures Shapes(Request(r, capacity, u).0.slots) == Take(MostRecent(history + [u]), capacity)
  {
    var recent := MostRecent(history);
    MostRecentOfOneMore(history, u);
    MostRecentHasNoRepeats(history);
    var i := IndexOf(r.slots, u);
    if i < |r.slots| {
      assert recent[i] == Shapes(r.slots)[i] == u;
      HitKeepsMostRecent(r.slots, capacity, recent, i);
      assert MoveToFront(r.slots, 0) == r.slots;
    } else {
      assert u !in Shapes(r.slots) by {
        assert forall k :: 0 <= k < |r.slots| ==> Shapes(r.slots)[k] == r.slots[k].shape;
      }
      var id := if |r.slots| >= capacity then r.slots[|r.slots| - 1].index else |r.slots|;
      MissKeepsMostRecent(r.slots, capacity, recent, u, id);
    }
  }

  lemma {:induction false} MostRecentOfOneMore(history: seq<Shape>, u: Shape)
    ensures MostRecent(history + [u]) == [u] + Without(MostRecent(history), u)
  {
    assert (history + [u])[..|history|] == history;
  }

  lemma {:induction false} ReferenceRunSplit(r: Recency, capacity: nat, calls: seq<Call>)
    requires capacity > 0 && calls != []
    ensures var n := |calls| - 1;
            ReferenceRun(r, capacity, calls).0
            == ReferenceUpdate(ReferenceRun(r, capacity, calls[..n]).0, capacity, calls[n]).0
    decreases |calls|
  {
    var n := |calls| - 1;
    if n > 0 {
      var r1 := ReferenceUpdate(r, capacity, calls[0]).0;
      ReferenceRunSplit(r1, capacity, calls[1..]);
      assert calls[1..][..n - 1] == calls[..n][1..];
      assert calls[1..][n - 1] == calls[n];
    }
  }

  lemma {:induction false} ReferenceHoldsMostRecent(capacity: nat, calls: seq<Call>)
    requires capacity > 0
    ensures Shapes(ReferenceRun(Recency([], false), capacity, calls).0.slots)
            == Take(MostRecent(Requests(calls)), capacity)
    decreases |calls|
  {
    if calls != [] {
      var n := |calls| - 1;
      ReferenceRunSplit(Recency([], false), capacity, calls);
      ReferenceHoldsMostRecent(capacity, calls[..n]);
      var r := ReferenceRun(Recency([], false), capacity, calls[..n]).0;
      if calls[n].streaming && Displayable(calls[n].request) {
        RequestKeepsMostRecent(r, capacity, Requests(calls[..n]), calls[n].request);
      } else {
        assert Requests(calls) == Requests(calls[..n]);
      }
    }
  }

  /**
   From start-up, with a strictly increasing clock, the cache holds exactly the
   `capacity` most recently requested distinct pointers, each once: eviction is LRU.
   */
  lemma {:induction false} CacheHoldsMostRecentPointers(capacity: nat, calls: seq<Call>)
    requires capacity > 0 && ValidRun(INITIAL, capacity, calls) && StrictlyIncreasingClock(calls)
    ensures var cache := Run(INITIAL, capacity, calls).0.cache;
            var recent := Take(MostRecent(Requests(calls)), capacity);
            && |cache| == |recent|
            && (forall u :: u in recent <==> exists k :: k in cache && cache[k].shape == u)
  {
    var start := Recency([], false);
    CacheRefinesRecencyList(start, INITIAL, Client(capacity, map[], ShowsDefault, false), calls);
    ReferenceHoldsMostRecent(capacity, calls);
    SlotsHoldCachedShapes(ReferenceRun(start, capacity, calls).0, Run(INITIAL, capacity, calls).0);
  }

  lemma {:induction false} SlotsHoldCachedShapes(r: Recency, s: Server)
    requires Represents(r, s)
    ensures forall u :: u in Shapes(r.slots) <==> exists k :: k in s.cache && s.cache[k].shape == u
  {
    var shapes := Shapes(r.slots);
    forall k | k in s.cache
      ensures s.cache[k].shape in shapes
    {
      SlotsCoverCache(r, s, k);
      var i :| 0 <= i < |r.slots| && r.slots[i].index == k;
      assert shapes[i] == s.cache[k].shape;
    }
    forall u | u in shapes
      ensures exists k :: k in s.cache && s.cache[k].shape == u
    {
      var i :| 0 <= i < |shapes| && shapes[i] == u;
      assert s.cache[r.slots[i].index].shape == u;
    }
  }
}
