/**
 * The message view's `groups` memo: a conversation's messages bucketed by
 * calendar day (days in order of first appearance, each day's messages in
 * list order), then, within a day, each message flagged as the first or
 * last of its run of consecutive messages from the same sender class.
 *
 * The locale date formatting that produces a day label from a message's
 * timestamp is the parameter `dayKey`.
 */
module ChatWindow {
  import opened Types

  /** A message as the view renders it: the message and the three flags it gains. */
  datatype ClusteredMessage = ClusteredMessage(
    msg: Message, firstInGroup: bool, lastInGroup: bool, showAvatar: bool)

  /** One entry of `groups`: a day label and that day's clustered messages. */
  datatype DayGroup = DayGroup(day: string, messages: seq<ClusteredMessage>)

  /** The day label of a message. */
  function DayOf(dayKey: string -> string, m: Message): string {
    dayKey(m.createdAt)
  }

  // ---------------------------------------------------------------------
  // Day bucketing: what the loop over `list` builds

  /**
   * The keys of the day map in insertion order: a day is added when its
   * first message is met.
   */
  function DayOrder(dayKey: string -> string, list: seq<Message>): seq<string> {
    if list == [] then []
    else
      var days := DayOrder(dayKey, list[..|list| - 1]);
      var k := DayOf(dayKey, list[|list| - 1]);
      if k in days then days else days + [k]
  }

  /** The day map's list for `day`: the messages pushed under that key. */
  function Bucket(dayKey: string -> string, list: seq<Message>, day: string): (r: seq<Message>)
    ensures |r| <= |list|
    ensures forall m :: m in r ==> m in list && DayOf(dayKey, m) == day
  {
    if list == [] then []
    else
      var last := list[|list| - 1];
      Bucket(dayKey, list[..|list| - 1], day) + (if DayOf(dayKey, last) == day then [last] else [])
  }

  /**
   * The bucketing loop. The JavaScript `Map` is a pair: `days`, its keys in
   * insertion order, and `byDay`, the list under each key.
   */
  method GroupByDay(list: seq<Message>, dayKey: string -> string)
    returns (days: seq<string>, byDay: map<string, seq<Message>>)
    ensures days == DayOrder(dayKey, list)
    ensures forall k :: k in byDay <==> k in days
    ensures forall k :: k in byDay ==> byDay[k] == Bucket(dayKey, list, k)
  {
    days, byDay := [], map[];
    var i := 0;
    while i < |list|
      invariant 0 <= i <= |list|
      invariant days == DayOrder(dayKey, list[..i])
      invariant forall k :: k in byDay <==> k in days
      invariant forall k :: k in byDay ==> byDay[k] == Bucket(dayKey, list[..i], k)
    {
      var m := list[i];
      var k := DayOf(dayKey, m);
      assert list[..i + 1][..i] == list[..i];
      if k !in byDay {
        BucketOfUnseenDay(dayKey, list[..i], k);
        byDay := byDay[k := []];
        days := days + [k];
      }
      byDay := byDay[k := byDay[k] + [m]];
      i := i + 1;
    }
    assert list[..i] == list;
  }

  // ---------------------------------------------------------------------
  // Clustering by sender class within one day

  /** The message at `i` opens a run: no previous message, or one from another sender class. */
  predicate OpensRun(msgs: seq<Message>, i: int)
    requires 0 <= i < |msgs|
  {
    i == 0 || msgs[i - 1].senderType != msgs[i].senderType
  }

  /** The message at `i` closes a run: no next message, or one from another sender class. */
  predicate ClosesRun(msgs: seq<Message>, i: int)
    requires 0 <= i < |msgs|
  {
    i == |msgs| - 1 || msgs[i + 1].senderType != msgs[i].senderType
  }

  /**
   * The `clustered` map over one day's messages: each message unchanged,
   * with `firstInGroup`, `lastInGroup` and `showAvatar = lastInGroup`.
   */
  function Cluster(msgs: seq<Message>): (r: seq<ClusteredMessage>)
    ensures |r| == |msgs|
    ensures forall i :: 0 <= i < |r| ==>
      && r[i].msg == msgs[i]
      && (r[i].firstInGroup <==> OpensRun(msgs, i))
      && (r[i].lastInGroup <==> ClosesRun(msgs, i))
      && r[i].showAvatar == r[i].lastInGroup
  {
    seq(|msgs|, i requires 0 <= i < |msgs| =>
      var last := ClosesRun(msgs, i);
      ClusteredMessage(msgs[i], OpensRun(msgs, i), last, last))
  }

  /** The whole memo: one `DayGroup` per day, in first-seen order. */
  method Groups(list: seq<Message>, dayKey: string -> string) returns (groups: seq<DayGroup>)
    ensures |groups| == |DayOrder(dayKey, list)|
    ensures forall j :: 0 <= j < |groups| ==>
      groups[j] == DayGroup(DayOrder(dayKey, list)[j], Cluster(Bucket(dayKey, list, DayOrder(dayKey, list)[j])))
  {
    var days, byDay := GroupByDay(list, dayKey);
    groups := seq(|days|, j requires 0 <= j < |days| && days[j] in byDay =>
      DayGroup(days[j], Cluster(byDay[days[j]])));
  }

  /**
   * The memo is recomputed on every render; two computations over the same
   * list give the same groups.
   */
  method RegroupIsIdentical(list: seq<Message>, dayKey: string -> string)
    returns (first: seq<DayGroup>, second: seq<DayGroup>)
    ensures first == second
  {
    first := Groups(list, dayKey);
    second := Groups(list, dayKey);
  }

  // ---------------------------------------------------------------------
  // Properties of the day bucketing

  /** A day that has not been seen has an empty list. */
  lemma {:induction false} BucketOfUnseenDay(dayKey: string -> string, list: seq<Message>, day: string)
    requires day !in DayOrder(dayKey, list)
    ensures Bucket(dayKey, list, day) == []
  {
    if list != [] {
      var init := list[..|list| - 1];
      assert day !in DayOrder(dayKey, init);
      BucketOfUnseenDay(dayKey, init, day);
    }
  }

  /** A day none of whose messages has been met is not listed. */
  lemma {:induction false} DayAbsentBeforeFirstMessage(dayKey: string -> string, list: seq<Message>, day: string)
    requires forall i :: 0 <= i < |list| ==> DayOf(dayKey, list[i]) != day
    ensures day !in DayOrder(dayKey, list)
  {
    if list != [] {
      var init := list[..|list| - 1];
      assert forall i :: 0 <= i < |init| ==> init[i] == list[i];
      DayAbsentBeforeFirstMessage(dayKey, init, day);
    }
  }

  /** Every listed day has at least one message. */
  lemma {:induction false} BucketOfSeenDay(dayKey: string -> string, list: seq<Message>, day: string)
    requires day in DayOrder(dayKey, list)
    ensures Bucket(dayKey, list, day) != []
  {
    var init := list[..|list| - 1];
    if DayOf(dayKey, list[|list| - 1]) != day {
      BucketOfSeenDay(dayKey, init, day);
    }
  }

  /** No day is listed twice. */
  lemma {:induction false} DayOrderDistinct(dayKey: string -> string, list: seq<Message>)
    ensures Distinct(DayOrder(dayKey, list))
  {
    if list != [] {
      DayOrderDistinct(dayKey, list[..|list| - 1]);
    }
  }

  /** The day of every message is listed. */
  lemma {:induction false} DayOrderCovers(dayKey: string -> string, list: seq<Message>)
    ensures forall i :: 0 <= i < |list| ==> DayOf(dayKey, list[i]) in DayOrder(dayKey, list)
  {
    if list != [] {
      var init := list[..|list| - 1];
      DayOrderCovers(dayKey, init);
      assert forall i :: 0 <= i < |init| ==> list[i] == init[i];
    }
  }

  /** The days listed for a prefix of the list are a prefix of the days listed for it. */
  lemma {:induction false} DayOrderPrefix(dayKey: string -> string, list: seq<Message>, n: nat)
    requires n <= |list|
    ensures DayOrder(dayKey, list[..n]) <= DayOrder(dayKey, list)
    decreases |list| - n
  {
    if n < |list| {
      DayOrderPrefix(dayKey, list, n + 1);
      assert list[..n + 1][..n] == list[..n];
    } else {
      assert list[..n] == list;
    }
  }

  /**
   * Days appear in order of first occurrence: when the first message of the
   * day at position `b` is at index `ib`, the days seen before `ib` are
   * exactly the days listed before position `b`.
   */
  lemma DayOrderFirstSeen(dayKey: string -> string, list: seq<Message>, b: nat, ib: nat)
    requires b < |DayOrder(dayKey, list)| && ib < |list|
    requires DayOf(dayKey, list[ib]) == DayOrder(dayKey, list)[b]
    requires forall i :: 0 <= i < ib ==> DayOf(dayKey, list[i]) != DayOrder(dayKey, list)[b]
    ensures DayOrder(dayKey, list[..ib]) == DayOrder(dayKey, list)[..b]
  {
    var all := DayOrder(dayKey, list);
    var before := DayOrder(dayKey, list[..ib]);
    var upTo := DayOrder(dayKey, list[..ib + 1]);
    var k := all[b];
    DayOrderPrefix(dayKey, list, ib);
    DayOrderPrefix(dayKey, list, ib + 1);
    assert list[..ib + 1][..ib] == list[..ib];
    assert forall i :: 0 <= i < ib ==> list[..ib][i] == list[i];
    DayAbsentBeforeFirstMessage(dayKey, list[..ib], k);
    assert upTo == before + [k];
    DayOrderDistinct(dayKey, list);
    assert all[|before|] == k;
  }

  /** Pushing onto the lists distributes over concatenation: each list keeps list order. */
  lemma {:induction false} BucketAppend(dayKey: string -> string, a: seq<Message>, b: seq<Message>, day: string)
    ensures Bucket(dayKey, a + b, day) == Bucket(dayKey, a, day) + Bucket(dayKey, b, day)
    decreases |b|
  {
    if b == [] {
      assert a + b == a;
    } else {
      var last := b[|b| - 1];
      assert (a + b)[..|a + b| - 1] == a + b[..|b| - 1];
      BucketAppend(dayKey, a, b[..|b| - 1], day);
    }
  }

  /**
   * Each message is in the list of its own day and in no other list: the
   * listed days are distinct and a list holds only messages of its day.
   */
  lemma {:induction false} LandsInOwnDay(dayKey: string -> string, list: seq<Message>, i: nat)
    requires i < |list|
    ensures list[i] in Bucket(dayKey, list, DayOf(dayKey, list[i]))
    ensures forall day :: day != DayOf(dayKey, list[i]) ==> list[i] !in Bucket(dayKey, list, day)
  {
    assert list == list[..i] + [list[i]] + list[i + 1..];
    var k := DayOf(dayKey, list[i]);
    BucketAppend(dayKey, list[..i] + [list[i]], list[i + 1..], k);
    BucketAppend(dayKey, list[..i], [list[i]], k);
    assert [list[i]][..0] == [];
  }

  /** The number of messages over the lists of `days`. */
  function TotalSize(dayKey: string -> string, list: seq<Message>, days: seq<string>): nat {
    if days == [] then 0
    else TotalSize(dayKey, list, days[..|days| - 1]) + |Bucket(dayKey, list, days[|days| - 1])|
  }

  /** Adding one message adds one to the total over a set of distinct days that holds its day. */
  lemma {:induction false} TotalSizeStep(dayKey: string -> string, list: seq<Message>, m: Message, days: seq<string>)
    requires Distinct(days)
    ensures TotalSize(dayKey, list + [m], days)
         == TotalSize(dayKey, list, days) + (if DayOf(dayKey, m) in days then 1 else 0)
  {
    if days != [] {
      var init := days[..|days| - 1];
      var d := days[|days| - 1];
      assert (list + [m])[..|list + [m]| - 1] == list;
      TotalSizeStep(dayKey, list, m, init);
      assert d !in init;
      assert DayOf(dayKey, m) in days <==> DayOf(dayKey, m) in init || DayOf(dayKey, m) == d;
    }
  }

  /** The groups together hold every message once: their sizes add up to the list's length. */
  lemma {:induction false} GroupsCoverList(dayKey: string -> string, list: seq<Message>)
    ensures TotalSize(dayKey, list, DayOrder(dayKey, list)) == |list|
  {
    if list != [] {
      var init := list[..|list| - 1];
      var m := list[|list| - 1];
      assert init + [m] == list;
      var days := DayOrder(dayKey, init);
      GroupsCoverList(dayKey, init);
      DayOrderDistinct(dayKey, init);
      TotalSizeStep(dayKey, init, m, days);
      if DayOf(dayKey, m) !in days {
        BucketOfUnseenDay(dayKey, init, DayOf(dayKey, m));
        assert DayOrder(dayKey, list)[..|days|] == days;
      }
    }
  }

  // ---------------------------------------------------------------------
  // Properties of the clustering

  /** In a non-empty day, the first message opens a run and the last one closes a run. */
  lemma ClusterEnds(msgs: seq<Message>)
    requires msgs != []
    ensures Cluster(msgs)[0].firstInGroup
    ensures Cluster(msgs)[|msgs| - 1].lastInGroup && Cluster(msgs)[|msgs| - 1].showAvatar
  {
  }

  /** A run closes exactly where the next one opens. */
  lemma ClusterBoundaries(msgs: seq<Message>, i: nat)
    requires i + 1 < |msgs|
    ensures Cluster(msgs)[i].lastInGroup <==> Cluster(msgs)[i + 1].firstInGroup
  {
  }

  /**
   * Messages all from one sender class form one run: only the first opens
   * it, only the last closes it and shows the avatar.
   */
  lemma ClusterOneSender(msgs: seq<Message>)
    requires forall i :: 0 <= i < |msgs| ==> msgs[i].senderType == msgs[0].senderType
    ensures forall i :: 0 <= i < |msgs| ==>
      && (Cluster(msgs)[i].firstInGroup <==> i == 0)
      && (Cluster(msgs)[i].lastInGroup <==> i == |msgs| - 1)
      && (Cluster(msgs)[i].showAvatar <==> i == |msgs| - 1)
  {
  }

  /**
   * Clustering is local: where the sender class changes, the day can be cut
   * in two and each half clustered on its own.
   */
  lemma ClusterSplitsAtSenderChange(a: seq<Message>, b: seq<Message>)
    requires a != [] && b != []
    requires a[|a| - 1].senderType != b[0].senderType
    ensures Cluster(a + b) == Cluster(a) + Cluster(b)
  {
    var whole, parts := Cluster(a + b), Cluster(a) + Cluster(b);
    forall n | 0 <= n < |whole| ensures whole[n] == parts[n] {
      if n < |a| {
        ClusterOfLeftPart(a, b, n);
        assert parts[n] == Cluster(a)[n];
      } else {
        ClusterOfRightPart(a, b, n);
        assert parts[n] == Cluster(b)[n - |a|];
      }
    }
    assert |whole| == |parts|;
  }

  lemma ClusterOfLeftPart(a: seq<Message>, b: seq<Message>, i: nat)
    requires i < |a| && b != []
    requires a[|a| - 1].senderType != b[0].senderType
    ensures Cluster(a + b)[i] == Cluster(a)[i]
  {
    var ab := a + b;
    assert ab[i] == a[i];
    assert OpensRun(ab, i) == OpensRun(a, i) by {
      if i > 0 { assert ab[i - 1] == a[i - 1]; }
    }
    assert ClosesRun(ab, i) == ClosesRun(a, i) by {
      if i + 1 < |a| { assert ab[i + 1] == a[i + 1]; } else { assert ab[i + 1] == b[0]; }
    }
  }

  lemma ClusterOfRightPart(a: seq<Message>, b: seq<Message>, n: nat)
    requires a != [] && |a| <= n < |a| + |b|
    requires a[|a| - 1].senderType != b[0].senderType
    ensures Cluster(a + b)[n] == Cluster(b)[n - |a|]
  {
    var ab := a + b;
    var i := n - |a|;
    assert ab[n] == b[i];
    assert OpensRun(ab, n) == OpensRun(b, i) by {
      if i > 0 { assert ab[n - 1] == b[i - 1]; } else { assert ab[n - 1] == a[|a| - 1]; }
    }
    assert ClosesRun(ab, n) == ClosesRun(b, i) by {
      if i + 1 < |b| { assert ab[n + 1] == b[i + 1]; }
    }
  }

  /**
   * Every group of the memo is non-empty, holds its day's messages in list
   * order with their fields unchanged, and starts with a `firstInGroup`
   * message and ends with a `lastInGroup` one.
   */
  lemma DayGroupShape(dayKey: string -> string, list: seq<Message>, j: nat)
    requires j < |DayOrder(dayKey, list)|
    ensures var day := DayOrder(dayKey, list)[j];
      var g := Cluster(Bucket(dayKey, list, day));
      && g != []
      && |g| == |Bucket(dayKey, list, day)|
      && (forall i :: 0 <= i < |g| ==> g[i].msg == Bucket(dayKey, list, day)[i] && DayOf(dayKey, g[i].msg) == day)
      && g[0].firstInGroup && g[|g| - 1].lastInGroup
  {
    var day := DayOrder(dayKey, list)[j];
    BucketOfSeenDay(dayKey, list, day);
    var bucket := Bucket(dayKey, list, day);
    assert forall i :: 0 <= i < |bucket| ==> bucket[i] in bucket;
  }
}
