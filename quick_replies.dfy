/**
 * The quick-replies hook: the hotel's canned replies, a per-hotel list of
 * pinned reply ids kept in local storage, and the display order that puts
 * the pinned replies first.
 */
module QuickReplies {
  import opened Wrappers
  import opened Types
  import opened JsStrings
  import opened PinCodec

  datatype QuickReply = QuickReply(id: Uuid, title: string, body: string)

  const PinKeyBase := "ml.qr.pins"
  const LoadFailed := "Failed to load"

  /** The storage key of the pins: one per hotel, or a shared one without a hotel. */
  function PinKey(hotelId: Option<string>): string {
    if Truthy(hotelId) then PinKeyBase + "." + hotelId.value else PinKeyBase
  }

  /** Two hotels never share a pin key, and no hotel uses the shared one. */
  lemma PinKeyPerHotel(a: Option<string>, b: Option<string>)
    requires Truthy(a)
    ensures PinKey(a) == PinKey(b) <==> Truthy(b) && a.value == b.value
  {
    var n := |PinKeyBase| + 1;
    assert PinKey(a)[n..] == a.value;
    if Truthy(b) {
      assert PinKey(b)[n..] == b.value;
    } else {
      assert |PinKey(b)| < |PinKey(a)|;
    }
  }

  /** The pins as the hook reads them: a missing or empty entry reads as "[]". */
  function LoadPins(storage: map<string, string>, key: string): Option<seq<string>> {
    Parse(if key in storage && storage[key] != "" then storage[key] else "[]")
  }

  /** Pins written with `JSON.stringify` read back as written; with none stored there are none. */
  lemma LoadStoredPins(storage: map<string, string>, key: string, pins: seq<string>)
    ensures LoadPins(storage[key := Stringify(pins)], key) == Some(pins)
    ensures key !in storage ==> LoadPins(storage, key) == Some([])
  {
    ParseStringify(pins);
    ParseStringify([]);
    assert Stringify([]) == "[]";
  }

  /** The error the hook keeps when the fetch fails: the server's detail, or "Failed to load". */
  function FetchError(detail: Option<string>): (r: string)
    ensures r != ""
    ensures Truthy(detail) ==> r == detail.value
  {
    if Truthy(detail) then detail.value else LoadFailed
  }

  // ---------------------------------------------------------------------
  // togglePin

  /** `pins.filter(x => x !== id)`. */
  function Without(pins: seq<string>, id: string): seq<string> {
    if pins == [] then []
    else (if pins[0] == id then [] else [pins[0]]) + Without(pins[1..], id)
  }

  /** Filtering drops every occurrence of `id` and keeps every other pin as often as it was there. */
  lemma {:induction false} WithoutSpec(pins: seq<string>, id: string)
    ensures id !in Without(pins, id)
    ensures forall x :: x != id ==> multiset(Without(pins, id))[x] == multiset(pins)[x]
  {
    if pins != [] {
      WithoutSpec(pins[1..], id);
      assert pins == [pins[0]] + pins[1..];
    }
  }

  lemma {:induction false} WithoutAbsent(pins: seq<string>, id: string)
    requires id !in pins
    ensures Without(pins, id) == pins
  {
    if pins != [] {
      WithoutAbsent(pins[1..], id);
      assert pins == [pins[0]] + pins[1..];
    }
  }

  lemma {:induction false} WithoutKeepsDistinct(pins: seq<string>, id: string)
    requires Distinct(pins)
    ensures Distinct(Without(pins, id))
    ensures forall x :: x in Without(pins, id) ==> x in pins
  {
    if pins != [] {
      WithoutKeepsDistinct(pins[1..], id);
      assert pins[0] !in pins[1..] by {
        forall k | 0 <= k < |pins| - 1 ensures pins[1..][k] != pins[0] {
          assert pins[1..][k] == pins[k + 1];
        }
      }
    }
  }

  /** The next pin list: `id` is unpinned when pinned and pinned at the end otherwise. */
  function TogglePins(pins: seq<string>, id: string): seq<string> {
    if id in pins then Without(pins, id) else pins + [id]
  }

  /**
   * After a toggle `id` is pinned exactly when it was not, an absent id
   * goes to the end, and every other pin stays as often as it was there.
   */
  lemma TogglePinsSpec(pins: seq<string>, id: string)
    ensures id in TogglePins(pins, id) <==> id !in pins
    ensures id !in pins ==> TogglePins(pins, id) == pins + [id]
    ensures forall x :: x != id ==> multiset(TogglePins(pins, id))[x] == multiset(pins)[x]
  {
    WithoutSpec(pins, id);
  }

  /** Pinning an id and toggling it again restores the list. */
  lemma ToggleTwiceRestores(pins: seq<string>, id: string)
    requires id !in pins
    ensures TogglePins(TogglePins(pins, id), id) == pins
  {
    var p := pins + [id];
    assert id in p;
    assert Without(p, id) == pins by {
      WithoutAppendLast(pins, id);
    }
  }

  lemma {:induction false} WithoutAppendLast(pins: seq<string>, id: string)
    requires id !in pins
    ensures Without(pins + [id], id) == pins
  {
    if pins == [] {
      assert [] + [id] == [id];
    } else {
      assert (pins + [id])[1..] == pins[1..] + [id];
      WithoutAppendLast(pins[1..], id);
      assert pins == [pins[0]] + pins[1..];
    }
  }

  /** Toggling keeps a pin list free of duplicates. */
  lemma TogglePinsKeepsDistinct(pins: seq<string>, id: string)
    requires Distinct(pins)
    ensures Distinct(TogglePins(pins, id))
  {
    if id in pins {
      WithoutKeepsDistinct(pins, id);
    }
  }

  // ---------------------------------------------------------------------
  // ordered

  /** `new Map(items.map(i => [i.id, i])).get(id)`: a later item with the same id replaces an earlier one. */
  function Lookup(items: seq<QuickReply>, id: Uuid): (r: Option<QuickReply>)
    ensures r.Some? ==> r.value in items && r.value.id == id
    ensures r.None? ==> forall k :: 0 <= k < |items| ==> items[k].id != id
  {
    if items == [] then None
    else if items[|items| - 1].id == id then Some(items[|items| - 1])
    else Lookup(items[..|items| - 1], id)
  }

  /** The map keeps the last item with a given id. */
  lemma {:induction false} LookupTakesLast(items: seq<QuickReply>, k: nat)
    requires k < |items|
    requires forall j :: k < j < |items| ==> items[j].id != items[k].id
    ensures Lookup(items, items[k].id) == Some(items[k])
  {
    if k < |items| - 1 {
      LookupTakesLast(items[..|items| - 1], k);
    }
  }

  /** The pinned replies, in pin order; pins whose reply is gone are dropped. */
  function Pinned(items: seq<QuickReply>, pins: seq<string>): seq<QuickReply> {
    if pins == [] then []
    else
      (match Lookup(items, pins[0]) case Some(q) => [q] case None => [])
      + Pinned(items, pins[1..])
  }

  /** `items.filter(i => !pins.includes(i.id))`. */
  function Rest(items: seq<QuickReply>, pins: seq<string>): seq<QuickReply> {
    if items == [] then []
    else (if items[0].id in pins then [] else [items[0]]) + Rest(items[1..], pins)
  }

  /** The display order: the pinned replies first, then the others in their order. */
  function Ordered(items: seq<QuickReply>, pins: seq<string>): seq<QuickReply> {
    if |pins| == 0 then items else Pinned(items, pins) + Rest(items, pins)
  }

  function Ids(qs: seq<QuickReply>): (r: seq<Uuid>)
    ensures |r| == |qs| && forall k :: 0 <= k < |qs| ==> r[k] == qs[k].id
  {
    seq(|qs|, k requires 0 <= k < |qs| => qs[k].id)
  }

  /** The pins that name a reply in `items`, in pin order. */
  function MatchedPins(items: seq<QuickReply>, pins: seq<string>): seq<string> {
    if pins == [] then []
    else (if Lookup(items, pins[0]).Some? then [pins[0]] else []) + MatchedPins(items, pins[1..])
  }

  /** The pinned part lists the replies of the matched pins, in pin order. */
  lemma {:induction false} PinnedFollowsPinOrder(items: seq<QuickReply>, pins: seq<string>)
    ensures Ids(Pinned(items, pins)) == MatchedPins(items, pins)
    ensures forall q :: q in Pinned(items, pins) ==> q in items && q.id in pins
  {
    if pins != [] {
      PinnedFollowsPinOrder(items, pins[1..]);
      var head := match Lookup(items, pins[0]) case Some(q) => [q] case None => [];
      assert Ids(head + Pinned(items, pins[1..])) == Ids(head) + Ids(Pinned(items, pins[1..]));
    }
  }

  lemma {:induction false} RestMembers(items: seq<QuickReply>, pins: seq<string>)
    ensures forall q :: q in Rest(items, pins) <==> q in items && q.id !in pins
  {
    if items != [] {
      RestMembers(items[1..], pins);
      assert items == [items[0]] + items[1..];
    }
  }

  /** The unpinned replies keep their fetched order. */
  lemma {:induction false} RestIsSubsequence(items: seq<QuickReply>, pins: seq<string>)
    ensures IsSubsequence(Rest(items, pins), items)
  {
    if items != [] {
      RestIsSubsequence(items[1..], pins);
      var r := Rest(items, pins);
      if items[0].id in pins {
        assert r == Rest(items[1..], pins);
      } else {
        assert r[0] == items[0] && r[1..] == Rest(items[1..], pins);
      }
    }
  }

  /**
   * With no pins the order is the fetched order; otherwise the pinned
   * replies come first, followed by the unpinned ones in their fetched order.
   */
  lemma PinnedComeFirst(items: seq<QuickReply>, pins: seq<string>)
    ensures pins == [] ==> Ordered(items, pins) == items
    ensures pins != [] ==>
      var o, n := Ordered(items, pins), |Pinned(items, pins)|;
      && n <= |o|
      && (forall k :: 0 <= k < n ==> o[k].id in pins)
      && (forall k :: n <= k < |o| ==> o[k].id !in pins)
      && (forall q :: q in o ==> q in items)
      && o[n..] == Rest(items, pins) && IsSubsequence(o[n..], items)
  {
    PinnedFollowsPinOrder(items, pins);
    RestMembers(items, pins);
    RestIsSubsequence(items, pins);
    if pins != [] {
      var p, r := Pinned(items, pins), Rest(items, pins);
      var o := p + r;
      forall k | |p| <= k < |o| ensures o[k].id !in pins {
        assert o[k] == r[k - |p|];
      }
      forall k | 0 <= k < |p| ensures o[k].id in pins {
        assert o[k] == p[k];
      }
    }
  }

  predicate DistinctIds(items: seq<QuickReply>) {
    forall i, j :: 0 <= i < j < |items| ==> items[i].id != items[j].id
  }

  lemma {:induction false} PinnedReachesMatched(items: seq<QuickReply>, pins: seq<string>, p: string)
    requires p in pins && Lookup(items, p).Some?
    ensures Lookup(items, p).value in Pinned(items, pins)
  {
    if pins[0] != p {
      PinnedReachesMatched(items, pins[1..], p);
    }
  }

  lemma {:induction false} PinnedDistinct(items: seq<QuickReply>, pins: seq<string>)
    requires Distinct(pins)
    ensures Distinct(Pinned(items, pins))
  {
    if pins != [] {
      PinnedDistinct(items, pins[1..]);
      PinnedFollowsPinOrder(items, pins[1..]);
      assert pins[0] !in pins[1..] by {
        forall k | 0 <= k < |pins| - 1 ensures pins[1..][k] != pins[0] {
          assert pins[1..][k] == pins[k + 1];
        }
      }
    }
  }

  lemma {:induction false} RestDistinct(items: seq<QuickReply>, pins: seq<string>)
    requires DistinctIds(items)
    ensures Distinct(Rest(items, pins))
  {
    if items != [] {
      RestDistinct(items[1..], pins);
      RestMembers(items[1..], pins);
      assert items[0] !in items[1..] by {
        forall k | 0 <= k < |items| - 1 ensures items[1..][k] != items[0] {
          assert items[1..][k] == items[k + 1];
        }
      }
    }
  }

  lemma {:induction false} DistinctCounts<T>(a: seq<T>)
    requires Distinct(a)
    ensures forall x :: multiset(a)[x] == if x in a then 1 else 0
  {
    if a != [] {
      DistinctCounts(a[1..]);
      assert a == [a[0]] + a[1..];
      assert a[0] !in a[1..] by {
        forall k | 0 <= k < |a| - 1 ensures a[1..][k] != a[0] {
          assert a[1..][k] == a[k + 1];
        }
      }
    }
  }

  /** Two lists without duplicates that hold the same elements are permutations of each other. */
  lemma DistinctSameElements<T>(a: seq<T>, b: seq<T>)
    requires Distinct(a) && Distinct(b)
    requires forall x :: x in a <==> x in b
    ensures multiset(a) == multiset(b)
  {
    DistinctCounts(a);
    DistinctCounts(b);
    assert forall x :: multiset(a)[x] == multiset(b)[x];
  }

  /**
   * With distinct reply ids and distinct pins, the display order is a
   * permutation of the fetched replies: every reply is shown exactly once.
   */
  lemma OrderedIsPermutation(items: seq<QuickReply>, pins: seq<string>)
    requires DistinctIds(items) && Distinct(pins)
    ensures multiset(Ordered(items, pins)) == multiset(items)
  {
    if pins != [] {
      var p, r := Pinned(items, pins), Rest(items, pins);
      PinnedFollowsPinOrder(items, pins);
      RestMembers(items, pins);
      PinnedDistinct(items, pins);
      RestDistinct(items, pins);
      forall i, j | 0 <= i < j < |p + r| ensures (p + r)[i] != (p + r)[j] {
        if j < |p| {
          assert (p + r)[i] == p[i] && (p + r)[j] == p[j];
        } else if i >= |p| {
          assert (p + r)[i] == r[i - |p|] && (p + r)[j] == r[j - |p|];
        } else {
          assert (p + r)[i] == p[i] && (p + r)[j] == r[j - |p|];
          assert p[i] in p && r[j - |p|] in r;
        }
      }
      forall q ensures q in p + r <==> q in items {
        if q in items && q.id in pins {
          var k :| 0 <= k < |items| && items[k] == q;
          LookupTakesLast(items, k);
          PinnedReachesMatched(items, pins, q.id);
        }
      }
      assert forall i, j :: 0 <= i < j < |items| ==> items[i] != items[j];
      DistinctSameElements(p + r, items);
    }
  }

  // ---------------------------------------------------------------------
  // the hook's state

  class QuickRepliesHook {
    const hotelId: Option<string>
    /** The pin key of this hotel. */
    const key: string
    var items: seq<QuickReply>
    var loading: bool
    var err: Option<string>
    /** The memoised pin list, read once per key. */
    var pins: seq<string>
    /** The browser's local storage. */
    var storage: map<string, string>

    /** The memoised pins are the ones in storage. */
    ghost predicate Fresh()
      reads this
    {
      LoadPins(storage, key) == Some(pins)
    }

    /**
     * The hook's first render: no replies yet, and the pins read from storage
     * (a stored value that does not parse makes that render throw).
     */
    constructor (hotelId: Option<string>, stored: map<string, string>)
      requires LoadPins(stored, PinKey(hotelId)).Some?
      ensures this.hotelId == hotelId && key == PinKey(hotelId)
      ensures items == [] && !loading && err == None
      ensures storage == stored && pins == LoadPins(stored, key).value
      ensures Fresh()
    {
      this.hotelId := hotelId;
      var k := PinKey(hotelId);
      key := k;
      items := [];
      loading := false;
      err := None;
      storage := stored;
      pins := LoadPins(stored, k).value;
    }

    /** The fetch effect starts: only with a hotel to fetch for. */
    method FetchStarted()
      modifies this
      ensures loading == (Truthy(hotelId) || old(loading))
      ensures items == old(items) && err == old(err) && pins == old(pins) && storage == old(storage)
    {
      if hotelId.Some? && hotelId.value != "" {
        loading := true;
      }
    }

    /** The fetch delivers the hotel's replies. */
    method FetchSucceeded(data: seq<QuickReply>)
      modifies this
      ensures items == data && !loading
      ensures err == old(err) && pins == old(pins) && storage == old(storage)
    {
      items := data;
      loading := false;
    }

    /** The fetch fails, with the server's detail if it sent one. */
    method FetchFailed(detail: Option<string>)
      modifies this
      ensures err == Some(FetchError(detail)) && !loading
      ensures items == old(items) && pins == old(pins) && storage == old(storage)
    {
      err := Some(if detail.Some? && detail.value != "" then detail.value else LoadFailed);
      loading := false;
    }

    /**
     * `togglePin` as written: the next list is computed from the memoised
     * pins and stored, but the memo is keyed on the storage key alone, so
     * the hook keeps the pins it read first.
     */
    method TogglePinAsWritten(id: string)
      modifies this
      ensures storage == old(storage)[key := Stringify(TogglePins(old(pins), id))]
      ensures pins == old(pins) && items == old(items) && loading == old(loading) && err == old(err)
    {
      var next := if id in pins then Without(pins, id) else pins + [id];
      storage := storage[key := Stringify(next)];
    }

    /** `togglePin` with the memo refreshed: storage and the hook agree afterwards. */
    method TogglePin(id: string)
      requires Fresh()
      modifies this
      ensures Fresh()
      ensures pins == TogglePins(old(pins), id)
      ensures storage == old(storage)[key := Stringify(pins)]
      ensures items == old(items) && loading == old(loading) && err == old(err)
    {
      var next := if id in pins then Without(pins, id) else pins + [id];
      storage := storage[key := Stringify(next)];
      pins := next;
      LoadStoredPins(old(storage), key, next);
    }
  }

  /**
   * Two toggles through the stale memo: pinning "a" and then "b" on a
   * hotel without pins leaves only "b" stored, and toggling "a" twice never
   * unpins it. With the memo refreshed the same toggles store ["a", "b"]
   * and [].
   */
  lemma StaleToggleLosesPin(storage: map<string, string>, key: string)
    ensures LoadPins(storage[key := Stringify(TogglePins([], "a"))][key := Stringify(TogglePins([], "b"))], key) == Some(["b"])
    ensures LoadPins(storage[key := Stringify(TogglePins([], "a"))][key := Stringify(TogglePins([], "a"))], key) == Some(["a"])
    ensures LoadPins(storage[key := Stringify(TogglePins([], "a"))][key := Stringify(TogglePins(["a"], "b"))], key) == Some(["a", "b"])
    ensures LoadPins(storage[key := Stringify(TogglePins([], "a"))][key := Stringify(TogglePins(["a"], "a"))], key) == Some([])
  {
    var s1 := storage[key := Stringify(TogglePins([], "a"))];
    assert TogglePins([], "b") == ["b"];
    assert TogglePins([], "a") == ["a"];
    assert TogglePins(["a"], "b") == ["a", "b"];
    WithoutSpec(["a"], "a");
    assert TogglePins(["a"], "a") == [];
    LoadStoredPins(s1, key, ["b"]);
    LoadStoredPins(s1, key, ["a"]);
    LoadStoredPins(s1, key, ["a", "b"]);
    LoadStoredPins(s1, key, []);
  }
}
