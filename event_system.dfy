/**
 * `EventSystem`: a registry from event type to the list of handlers
 * subscribed for it, with a disposed flag that makes every operation fail.
 *
 * Event types are the keys `K`; handlers are values `H` compared by
 * equality, as delegates are. Whether a handler throws on a published event
 * is the parameter `throws`; the logger call in its catch block is left out.
 */
module EventSystem {
  import opened Wrappers

  /** The `ObjectDisposedException` every operation throws after disposal. */
  datatype EventError = ObjectDisposed

  /** No handler occurs twice in a list. */
  predicate NoDuplicates<H(==)>(l: seq<H>) {
    forall i, j :: 0 <= i < j < |l| ==> l[i] != l[j]
  }

  /** Every key's list is free of duplicates. */
  predicate NoDuplicateHandlers<K, H(==)>(m: map<K, seq<H>>) {
    forall k :: k in m ==> NoDuplicates(m[k])
  }

  // ---------------------------------------------------------------------
  // The list operations
  // ---------------------------------------------------------------------

  /** `ImmutableList.Remove`: drop the first element equal to `h`, if any. */
  function RemoveFirst<H(==)>(l: seq<H>, h: H): (r: seq<H>)
    ensures h in l ==> |r| == |l| - 1
    ensures h !in l ==> r == l
    ensures forall x :: x in r ==> x in l
  {
    if l == [] then []
    else if l[0] == h then l[1..]
    else [l[0]] + RemoveFirst(l[1..], h)
  }

  /** The index of the first `h` in `l`. */
  function FirstIndex<H(==)>(l: seq<H>, h: H): (i: nat)
    requires h in l
    ensures i < |l| && l[i] == h && h !in l[..i]
  {
    if l[0] == h then 0
    else
      var i := 1 + FirstIndex(l[1..], h);
      assert l[..i] == [l[0]] + l[1..][..i - 1];
      i
  }

  /** Removal cuts out exactly the first occurrence; the others keep their order. */
  lemma {:induction false} RemoveFirstAt<H>(l: seq<H>, h: H)
    requires h in l
    ensures var i := FirstIndex(l, h); RemoveFirst(l, h) == l[..i] + l[i + 1..]
  {
    if l[0] != h {
      RemoveFirstAt(l[1..], h);
      var i := FirstIndex(l, h);
      assert l[1..][..i - 1] == l[1..i];
      assert l[1..][i..] == l[i + 1..];
      assert [l[0]] + l[1..i] == l[..i];
    }
  }

  /** With no duplicates, the removed handler is gone and no duplicate appears. */
  lemma RemoveFirstNoDuplicates<H>(l: seq<H>, h: H)
    requires NoDuplicates(l)
    ensures NoDuplicates(RemoveFirst(l, h)) && h !in RemoveFirst(l, h)
  {
    if h in l {
      RemoveFirstAt(l, h);
      var i := FirstIndex(l, h);
      var r := RemoveFirst(l, h);
      assert forall a :: 0 <= a < |r| ==> r[a] == if a < i then l[a] else l[a + 1];
      forall a, b | 0 <= a < b < |r| ensures r[a] != r[b] {
        var a', b' := if a < i then a else a + 1, if b < i then b else b + 1;
        assert r[a] == l[a'] && r[b] == l[b'] && a' < b';
      }
      forall a | 0 <= a < |r| ensures r[a] != h {
        var a' := if a < i then a else a + 1;
        assert r[a] == l[a'] && a' != i && l[i] == h;
      }
    }
  }

  /** Removing a handler just appended to a list that lacked it restores the list. */
  lemma {:induction false} RemoveFirstAppended<H>(l: seq<H>, h: H)
    requires h !in l
    ensures RemoveFirst(l + [h], h) == l
  {
    if l != [] {
      assert (l + [h])[1..] == l[1..] + [h];
      RemoveFirstAppended(l[1..], h);
    }
  }

  // ---------------------------------------------------------------------
  // The registry operations on the handler map
  // ---------------------------------------------------------------------

  /** The list `Subscribe` stores for `key`: `[h]` for a new key, else `h` appended if absent. */
  function SubscribedList<K, H(==)>(m: map<K, seq<H>>, key: K, h: H): seq<H> {
    if key !in m then [h]
    else if h in m[key] then m[key]
    else m[key] + [h]
  }

  /** The list `Unsubscribe` stores for `key`: `[]` for a new key, else the list without `h`. */
  function UnsubscribedList<K, H(==)>(m: map<K, seq<H>>, key: K, h: H): seq<H> {
    if key !in m then [] else RemoveFirst(m[key], h)
  }

  /** The handler map after `Subscribe(h)` for `key`. */
  function Subscribed<K, H(==)>(m: map<K, seq<H>>, key: K, h: H): (r: map<K, seq<H>>)
    ensures key in r && h in r[key]
    ensures key !in m ==> r[key] == [h]
    ensures key in m ==> |m[key]| <= |r[key]| <= |m[key]| + 1 && r[key][..|m[key]|] == m[key]
    ensures key in m && h in m[key] ==> r[key] == m[key]
    ensures forall k :: k in m && k != key ==> k in r && r[k] == m[k]
    ensures forall k :: k in r && k != key ==> k in m
  {
    m[key := SubscribedList(m, key, h)]
  }

  /** The handler map after `Unsubscribe(h)` for `key`. */
  function Unsubscribed<K, H(==)>(m: map<K, seq<H>>, key: K, h: H): (r: map<K, seq<H>>)
    ensures key in r
    ensures key !in m ==> r[key] == []
    ensures key in m && h in m[key] ==> |r[key]| == |m[key]| - 1
    ensures key in m && h !in m[key] ==> r[key] == m[key]
    ensures key in m ==> forall x :: x in r[key] ==> x in m[key]
    ensures forall k :: k in m && k != key ==> k in r && r[k] == m[k]
    ensures forall k :: k in r && k != key ==> k in m
  {
    m[key := UnsubscribedList(m, key, h)]
  }

  /** Subscribing keeps every list free of duplicates. */
  lemma SubscribedNoDuplicates<K, H>(m: map<K, seq<H>>, key: K, h: H)
    requires NoDuplicateHandlers(m)
    ensures NoDuplicateHandlers(Subscribed(m, key, h))
  {
    var l := SubscribedList(m, key, h);
    if key in m && h !in m[key] {
      var old_ := m[key];
      assert NoDuplicates(old_);
      forall i, j | 0 <= i < j < |l| ensures l[i] != l[j] {
        if j == |old_| {
          assert l[i] == old_[i];
        } else {
          assert l[i] == old_[i] && l[j] == old_[j];
        }
      }
    }
  }

  /** Unsubscribing keeps every list free of duplicates, and leaves `h` out of its key's list. */
  lemma UnsubscribedNoDuplicates<K, H>(m: map<K, seq<H>>, key: K, h: H)
    requires NoDuplicateHandlers(m)
    ensures NoDuplicateHandlers(Unsubscribed(m, key, h))
    ensures h !in Unsubscribed(m, key, h)[key]
  {
    if key in m {
      RemoveFirstNoDuplicates(m[key], h);
    }
  }

  /** Subscribing a handler already in its key's list changes nothing; subscribing twice is subscribing once. */
  lemma SubscribeIdempotent<K, H>(m: map<K, seq<H>>, key: K, h: H)
    ensures key in m && h in m[key] ==> Subscribed(m, key, h) == m
    ensures Subscribed(Subscribed(m, key, h), key, h) == Subscribed(m, key, h)
  {
    var m' := Subscribed(m, key, h);
    assert m'[key := SubscribedList(m', key, h)] == m';
  }

  /** A handler subscribed to a list that lacked it and then unsubscribed leaves that list as it was. */
  lemma SubscribeThenUnsubscribe<K, H>(m: map<K, seq<H>>, key: K, h: H)
    requires key in m && h !in m[key]
    ensures Unsubscribed(Subscribed(m, key, h), key, h) == m
  {
    RemoveFirstAppended(m[key], h);
    var r := Unsubscribed(Subscribed(m, key, h), key, h);
    assert r[key] == m[key];
  }

  // ---------------------------------------------------------------------
  // Publishing
  // ---------------------------------------------------------------------

  /** The handlers of a list that throw, in list order: the ones whose failure is logged. */
  function Failing<H>(l: seq<H>, throws: H -> bool): (r: seq<H>)
    ensures |r| <= |l|
    ensures forall x :: x in r ==> x in l && throws(x)
    ensures forall x :: x in l && throws(x) ==> x in r
  {
    if l == [] then []
    else Failing(l[..|l| - 1], throws) + (if throws(l[|l| - 1]) then [l[|l| - 1]] else [])
  }

  /** What a publish did: every handler it invoked in order, and the ones whose exception it logged. */
  datatype PublishTrace<H> = PublishTrace(invoked: seq<H>, logged: seq<H>)

  // ---------------------------------------------------------------------
  // The registry object
  // ---------------------------------------------------------------------

  class EventSystem<K(==), H(==)> {
    var handlers: map<K, seq<H>>
    var isDisposed: bool

    ghost predicate Valid()
      reads this
    {
      NoDuplicateHandlers(handlers)
    }

    constructor ()
      ensures Valid() && handlers == map[] && !isDisposed
    {
      handlers := map[];
      isDisposed := false;
    }

    /**
     * `Publish`: invoke every handler of `key` once, in list order; a
     * throwing handler is logged and the rest still run. A key with no
     * entry invokes nothing.
     */
    method Publish(key: K, throws: H -> bool) returns (r: Result<PublishTrace<H>, EventError>)
      ensures isDisposed <==> r == Err(ObjectDisposed)
      ensures !isDisposed ==>
        var list := if key in handlers then handlers[key] else [];
        r == Ok(PublishTrace(list, Failing(list, throws)))
    {
      if isDisposed {
        return Err(ObjectDisposed);
      }
      var invoked: seq<H> := [];
      var logged: seq<H> := [];
      if key in handlers {
        var list := handlers[key];
        for i := 0 to |list|
          invariant invoked == list[..i]
          invariant logged == Failing(list[..i], throws)
        {
          var handler := list[i];
          invoked := invoked + [handler];
          if throws(handler) {
            logged := logged + [handler];
          }
          assert list[..i + 1][..i] == list[..i];
        }
        assert list[..|list|] == list;
      }
      r := Ok(PublishTrace(invoked, logged));
    }

    /** `Subscribe`: add `h` to `key`'s list unless it is already there. */
    method Subscribe(key: K, h: H) returns (r: Outcome<EventError>)
      requires Valid()
      modifies this
      ensures Valid() && isDisposed == old(isDisposed)
      ensures old(isDisposed) ==> r == Fail(ObjectDisposed) && handlers == old(handlers)
      ensures !old(isDisposed) ==> r == Pass && handlers == Subscribed(old(handlers), key, h)
    {
      if isDisposed {
        return Fail(ObjectDisposed);
      }
      SubscribedNoDuplicates(handlers, key, h);
      var list := if key in handlers then (if h in handlers[key] then handlers[key] else handlers[key] + [h]) else [h];
      handlers := handlers[key := list];
      r := Pass;
    }

    /** `Unsubscribe`: remove `h` from `key`'s list; a key with no entry gets an empty list. */
    method Unsubscribe(key: K, h: H) returns (r: Outcome<EventError>)
      requires Valid()
      modifies this
      ensures Valid() && isDisposed == old(isDisposed)
      ensures old(isDisposed) ==> r == Fail(ObjectDisposed) && handlers == old(handlers)
      ensures !old(isDisposed) ==> r == Pass && handlers == Unsubscribed(old(handlers), key, h)
    {
      if isDisposed {
        return Fail(ObjectDisposed);
      }
      UnsubscribedNoDuplicates(handlers, key, h);
      var list := if key in handlers then RemoveFirst(handlers[key], h) else [];
      handlers := handlers[key := list];
      r := Pass;
    }

    /** `Dispose()`: `Dispose(disposing: true)`. */
    method Dispose()
      requires Valid()
      modifies this
      ensures Valid() && isDisposed
      ensures handlers == if old(isDisposed) then old(handlers) else map[]
    {
      DisposeCore(true);
    }

    /**
     * `Dispose(bool disposing)`: the first call sets the disposed flag and,
     * when `disposing`, clears the handlers; later calls do nothing.
     */
    method DisposeCore(disposing: bool)
      requires Valid()
      modifies this
      ensures Valid() && isDisposed
      ensures handlers == if !old(isDisposed) && disposing then map[] else old(handlers)
    {
      if !isDisposed {
        if disposing {
          handlers := map[];
        }
        isDisposed := true;
      }
    }
  }
}
