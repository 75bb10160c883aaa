/**
 The `Cursor` object of src/Cursor.cpp: fields updated in place, messages returned
 to the caller, and a ghost client that has received all of them.
 */
module CursorObject {
  import opened Wrappers
  import opened CursorCache

  class Cursor {
    const capacity: nat
    var cursorType: CursorType
    var lastUsedCursor: Option<nat>
    var cursorCache: map<nat, Entry>
    /** What the client holds after the messages sent so far; never read by the methods. */
    ghost var client: Client

    ghost function Model(): Server
      reads this
    {
      Server(cursorType, lastUsedCursor, cursorCache)
    }

    ghost predicate Valid()
      reads this
    {
      capacity > 0 && client.capacity == capacity && Agrees(Model(), client)
    }

    constructor (pointerCacheSize: nat)
      requires pointerCacheSize > 0
      ensures Valid() && Model() == INITIAL && capacity == pointerCacheSize
    {
      capacity := pointerCacheSize;
      cursorType := SystemDefault;
      lastUsedCursor := None;
      cursorCache := map[];
      client := Client(pointerCacheSize, map[], ShowsDefault, false);
    }

    /** `find_if` over the hash, in whatever order it iterates. */
    method FindCached(u: Shape) returns (found: Option<nat>)
      ensures found.Some? ==> found.value in cursorCache && cursorCache[found.value].shape == u
      ensures found.None? ==> forall k :: k in cursorCache ==> cursorCache[k].shape != u
    {
      var rest := cursorCache.Keys;
      while rest != {}
        invariant rest <= cursorCache.Keys
        invariant forall k :: k in cursorCache && k !in rest ==> cursorCache[k].shape != u
        decreases rest
      {
        var k :| k in rest;
        if cursorCache[k].shape == u {
          return Some(k);
        }
        rest := rest - {k};
      }
      return None;
    }

    /** `min_element` by last use over the hash, in whatever order it iterates. */
    method LeastRecentlyUsed() returns (lru: nat)
      requires cursorCache != map[]
      ensures IsOldest(cursorCache, lru)
    {
      var rest := cursorCache.Keys;
      assert exists k :: k in rest;
      lru :| lru in rest;
      rest := rest - {lru};
      while rest != {}
        invariant rest <= cursorCache.Keys && lru in cursorCache
        invariant forall k :: k in cursorCache && k !in rest ==>
          cursorCache[lru].lastUsed <= cursorCache[k].lastUsed
        decreases rest
      {
        var k :| k in rest;
        if cursorCache[k].lastUsed < cursorCache[lru].lastUsed {
          lru := k;
        }
        rest := rest - {k};
      }
    }

    method SetCursorType(t: CursorType) returns (sent: seq<Message>)
      modifies this`cursorType, this`lastUsedCursor
      ensures (Model(), sent) == CursorCache.SetCursorType(old(Model()), t)
    {
      sent := [];
      if cursorType == t {
        return;
      }
      cursorType := t;
      if t != ImageCursor {
        lastUsedCursor := None;
        sent := [PointerSystem(t == Hidden)];
      }
    }

    method Update(streaming: bool, u: Shape, now: int) returns (sent: seq<Message>, ghost victim: nat)
      requires Valid()
      modifies this
      ensures Valid()
      ensures ValidCall(old(Model()), capacity, Call(streaming, u, now, victim))
      ensures (Model(), sent) == CursorCache.Update(old(Model()), capacity, Call(streaming, u, now, victim))
      ensures client == ReceiveAll(old(client), sent)
      ensures streaming && u.image.Image? ==>
        client.shown == if Displayable(u) then ShowsPointer(OnWire(u)) else ShowsDefault
    {
      sent, victim := [], 0;
      ghost var before := Model();
      if streaming && u.image.Image? {
        if u.image.width > MAX_POINTER_SIZE || u.image.height > MAX_POINTER_SIZE {
          sent := SetCursorType(SystemDefault);
        } else {
          sent, victim := ShowImage(u, now);
        }
      }
      UpdateKeepsAgreement(before, client, Call(streaming, u, now, victim));
      client := ReceiveAll(client, sent);
    }

    method ShowImage(u: Shape, now: int) returns (sent: seq<Message>, ghost victim: nat)
      requires Valid() && Displayable(u)
      modifies this`cursorType, this`lastUsedCursor, this`cursorCache
      ensures MustEvict(old(Model()), capacity, u) ==> IsOldest(old(cursorCache), victim)
      ensures (Model(), sent)
              == Show(CursorCache.SetCursorType(old(Model()), ImageCursor).0, capacity, u, now, victim)
    {
      victim := 0;
      sent := SetCursorType(ImageCursor);
      if lastUsedCursor.Some? {
        var shown := cursorCache[lastUsedCursor.value];
        if shown.shape == u {
          cursorCache := cursorCache[lastUsedCursor.value := shown.(lastUsed := now)];
          return;
        }
      }
      var found := FindCached(u);
      if found.Some? {
        var entry := cursorCache[found.value];
        lastUsedCursor := found;
        cursorCache := cursorCache[found.value := entry.(lastUsed := now)];
        sent := [PointerCached(entry.cacheId)];
        return;
      }
      var cacheId := |cursorCache|;
      if |cursorCache| >= capacity {
        var lru := LeastRecentlyUsed();
        victim := lru;
        cacheId := cursorCache[lru].cacheId;
        cursorCache := cursorCache - {lru};
      }
      sent := [StoreMessage(u, cacheId), PointerCached(cacheId)];
      cursorCache := cursorCache[cacheId := Entry(u, cacheId, now)];
      lastUsedCursor := Some(cacheId);
    }
  }
}
