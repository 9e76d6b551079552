/**
 * The conversation list: the `cx` class joiner, the relative timestamp,
 * the free-text filter over four fields, the keyboard focus index over the
 * filtered rows and the per-status counts of the loaded page.
 */
module ConversationList {
  import opened Wrappers
  import opened JsStrings
  import opened Types

  // ---------------------------------------------------------------------
  // cx

  /**
   * The entries `filter(Boolean)` keeps. `false` and `undefined` entries
   * are `None`; the empty string is falsy too.
   */
  function Kept(xs: seq<Option<string>>): (r: seq<string>)
    ensures |r| <= |xs|
    ensures forall i :: 0 <= i < |r| ==> r[i] != "" && Some(r[i]) in xs
  {
    if xs == [] then []
    else (if Truthy(xs[0]) then [xs[0].value] else []) + Kept(xs[1..])
  }

  /** `cx(...xs)`: the truthy entries joined with one space. */
  function Cx(xs: seq<Option<string>>): string {
    Join(Kept(xs), " ")
  }

  /** Keeping the truthy entries distributes over concatenation. */
  lemma {:induction false} KeptAppend(xs: seq<Option<string>>, ys: seq<Option<string>>)
    ensures Kept(xs + ys) == Kept(xs) + Kept(ys)
  {
    if xs == [] {
      assert xs + ys == ys;
    } else {
      assert (xs + ys)[1..] == xs[1..] + ys;
      KeptAppend(xs[1..], ys);
    }
  }

  /** With no truthy entry the class string is empty. */
  lemma {:induction false} CxOfFalsyEntries(xs: seq<Option<string>>)
    requires forall i :: 0 <= i < |xs| ==> !Truthy(xs[i])
    ensures Cx(xs) == ""
  {
    if xs != [] {
      CxOfFalsyEntries(xs[1..]);
    }
  }

  /** Two argument lists that each keep something join with one space between them. */
  lemma CxConcat(xs: seq<Option<string>>, ys: seq<Option<string>>)
    requires Kept(xs) != [] && Kept(ys) != []
    ensures Cx(xs + ys) == Cx(xs) + " " + Cx(ys)
  {
    KeptAppend(xs, ys);
    JoinAppend(Kept(xs), Kept(ys), " ");
  }

  /**
   * When the class names themselves hold no space, splitting the result at
   * spaces gives back exactly the truthy entries, in order.
   */
  lemma CxSplitsBack(xs: seq<Option<string>>)
    requires Kept(xs) != []
    requires forall i :: 0 <= i < |xs| && xs[i].Some? ==> ' ' !in xs[i].value
    ensures Split(Cx(xs), ' ') == Kept(xs)
  {
    var kept := Kept(xs);
    forall i | 0 <= i < |kept| ensures ' ' !in kept[i] {
      var j :| 0 <= j < |xs| && xs[j] == Some(kept[i]);
    }
    SplitJoin(kept, ' ');
  }

  // ---------------------------------------------------------------------
  // relTime

  /**
   * `relTime(iso)`. `elapsed` is the whole number of seconds from the
   * timestamp to now, `floor((Date.now() - t) / 1000)`, or `None` when the
   * timestamp does not parse (the difference is NaN and every comparison
   * fails). Because the thresholds are whole numbers, comparing the whole
   * seconds decides exactly as comparing the fractional ones, and
   * `floor(diff / 60)` equals `floor(floor(diff) / 60)`. `localeDate` is the
   * short locale date the last branch formats.
   */
  function RelTime(iso: Option<string>, elapsed: Option<int>, localeDate: string): string {
    if !Truthy(iso) then ""
    else if elapsed.None? then localeDate
    else if elapsed.value < 60 then "just now"
    else if elapsed.value < 3600 then NatToDecimal(elapsed.value / 60) + "m"
    else if elapsed.value < 86400 then NatToDecimal(elapsed.value / 3600) + "h"
    else localeDate
  }

  /**
   * What the label says: nothing without a timestamp, "just now" under a
   * minute, and otherwise a number of whole minutes (under an hour) or whole
   * hours (under a day) that, read back, brackets the elapsed time.
   */
  lemma RelTimeReadsBack(iso: Option<string>, e: int, localeDate: string)
    ensures !Truthy(iso) ==> RelTime(iso, Some(e), localeDate) == ""
    ensures Truthy(iso) && e < 60 ==> RelTime(iso, Some(e), localeDate) == "just now"
    ensures Truthy(iso) && 60 <= e < 86400 ==>
      var r := RelTime(iso, Some(e), localeDate);
      var unit := if e < 3600 then 60 else 3600;
      && |r| >= 2 && r[|r| - 1] == (if e < 3600 then 'm' else 'h')
      && (forall k :: 0 <= k < |r| - 1 ==> IsDigit(r[k]))
      && unit * DecimalValue(r[..|r| - 1]) <= e < unit * DecimalValue(r[..|r| - 1]) + unit
      && 1 <= DecimalValue(r[..|r| - 1]) < (if e < 3600 then 60 else 24)
    ensures Truthy(iso) && e >= 86400 ==> RelTime(iso, Some(e), localeDate) == localeDate
    ensures Truthy(iso) ==> RelTime(iso, None, localeDate) == localeDate
  {
    if Truthy(iso) && 60 <= e < 86400 {
      var r := RelTime(iso, Some(e), localeDate);
      var unit := if e < 3600 then 60 else 3600;
      var digits := NatToDecimal(e / unit);
      assert r == digits + [r[|r| - 1]];
      assert r[..|r| - 1] == digits;
      DecimalRoundTrip(e / unit);
    }
  }

  // ---------------------------------------------------------------------
  // The text filter

  /** A searchable field, lower-cased, with a missing value read as "". */
  function FieldText(o: Option<string>): string {
    ToLower(o.GetOr(""))
  }

  function DepartmentText(c: Conversation): string {
    if c.department.Some? then ToLower(c.department.value.name) else ""
  }

  /** The query `t` occurs in the department name, room number, subject or guest language. */
  predicate Matches(c: Conversation, t: string) {
    || Includes(DepartmentText(c), t)
    || Includes(FieldText(c.roomNumber), t)
    || Includes(FieldText(c.subject), t)
    || Includes(FieldText(c.guestLanguage), t)
  }

  function KeepMatching(items: seq<Conversation>, t: string): seq<Conversation> {
    if items == [] then []
    else (if Matches(items[0], t) then [items[0]] else []) + KeepMatching(items[1..], t)
  }

  /** The normalised query: trimmed, then lower-cased. */
  function QueryText(q: string): string {
    ToLower(Trim(q))
  }

  /** The `filtered` memo. */
  function Filtered(items: seq<Conversation>, q: string): seq<Conversation> {
    var t := QueryText(q);
    if t == "" then items else KeepMatching(items, t)
  }

  lemma {:induction false} KeepMatchingIsSubsequence(items: seq<Conversation>, t: string)
    ensures IsSubsequence(KeepMatching(items, t), items)
  {
    if items != [] {
      KeepMatchingIsSubsequence(items[1..], t);
      var rest := KeepMatching(items[1..], t);
      var kept := KeepMatching(items, t);
      if Matches(items[0], t) {
        assert kept == [items[0]] + rest;
        assert kept[0] == items[0] && kept[1..] == rest;
      } else {
        assert kept == rest;
      }
    }
  }

  lemma {:induction false} KeepMatchingMembers(items: seq<Conversation>, t: string)
    ensures forall c :: c in KeepMatching(items, t) <==> c in items && Matches(c, t)
  {
    if items != [] {
      KeepMatchingMembers(items[1..], t);
      assert items == [items[0]] + items[1..];
    }
  }

  /** With a blank query the list is shown as it is. */
  lemma FilteredBlankQuery(items: seq<Conversation>, q: string)
    requires Trim(q) == ""
    ensures Filtered(items, q) == items
  {
  }

  /**
   * The filtered list is the loaded list with rows left out, in order, and
   * a row stays exactly when the query occurs in one of its four fields.
   */
  lemma FilteredSpec(items: seq<Conversation>, q: string)
    ensures IsSubsequence(Filtered(items, q), items)
    ensures forall c :: c in Filtered(items, q) <==> c in items && Matches(c, QueryText(q))
  {
    var t := QueryText(q);
    if t == "" {
      SubsequenceOfItself(items);
      forall c | c in items ensures Matches(c, t) {
        IncludesEmpty(DepartmentText(c));
      }
    } else {
      KeepMatchingIsSubsequence(items, t);
      KeepMatchingMembers(items, t);
    }
  }

  // ---------------------------------------------------------------------
  // Keyboard focus over the filtered rows

  const ArrowDownKey := "ArrowDown"
  const ArrowUpKey := "ArrowUp"
  const EnterKey := "Enter"

  /**
   * What a key press does: `Ignored` (the handler returns before
   * `preventDefault`), `Handled` (default prevented; with the page to go to,
   * if any), or `Threw` (a TypeError escapes the handler).
   */
  datatype KeyOutcome = Ignored | Handled(navigateTo: Option<string>) | Threw

  function ConversationHref(hotelId: string, conversationId: string): string {
    "/hotels/" + hotelId + "/conversations/" + conversationId
  }

  function Min(a: int, b: int): int { if a <= b then a else b }
  function Max(a: int, b: int): int { if a >= b then a else b }

  /** The focus updaters of the two arrow keys. */
  function NextFocus(key: string, focus: int, count: nat): int {
    if key == ArrowDownKey then Min(focus + 1, count - 1)
    else if key == ArrowUpKey then Max(focus - 1, 0)
    else focus
  }

  /**
   * `onKey` as written: Enter with a focus index at or past the end of the
   * filtered list reads `filtered[focusIdx]`, which is undefined, and
   * `c.id` throws. Returns the outcome and the new focus index.
   */
  function OnKeyAsWritten(key: string, focus: int, filtered: seq<Conversation>, hotelId: string)
    : (KeyOutcome, int)
  {
    if key != ArrowDownKey && key != ArrowUpKey && key != EnterKey then (Ignored, focus)
    else if |filtered| == 0 then (Ignored, focus)
    else if key == EnterKey then
      if focus < 0 then (Handled(None), focus)
      else if focus < |filtered| then (Handled(Some(ConversationHref(hotelId, filtered[focus].id))), focus)
      else (Threw, focus)
    else (Handled(None), NextFocus(key, focus, |filtered|))
  }

  /** `onKey` with Enter acting only on a focus index inside the filtered list. */
  function OnKey(key: string, focus: int, filtered: seq<Conversation>, hotelId: string)
    : (r: (KeyOutcome, int))
    ensures r.0 != Threw
  {
    if key != ArrowDownKey && key != ArrowUpKey && key != EnterKey then (Ignored, focus)
    else if |filtered| == 0 then (Ignored, focus)
    else if key == EnterKey then
      if 0 <= focus < |filtered| then (Handled(Some(ConversationHref(hotelId, filtered[focus].id))), focus)
      else (Handled(None), focus)
    else (Handled(None), NextFocus(key, focus, |filtered|))
  }

  /** The two differ only where the original throws. */
  lemma OnKeyAgreesWhereNothingThrows(key: string, focus: int, filtered: seq<Conversation>, hotelId: string)
    ensures OnKeyAsWritten(key, focus, filtered, hotelId).0 != Threw ==>
      OnKeyAsWritten(key, focus, filtered, hotelId) == OnKey(key, focus, filtered, hotelId)
    ensures OnKeyAsWritten(key, focus, filtered, hotelId).0 == Threw <==>
      key == EnterKey && |filtered| > 0 && focus >= |filtered|
  {
  }

  /**
   * The focus index outlives a change of query: two ArrowDown presses over
   * two rows focus the second, and once the query narrows the list to one
   * row, Enter throws in the original handler. The guarded handler
   * does nothing instead.
   */
  lemma StaleFocusAfterNarrowing(c1: Conversation, c2: Conversation, hotelId: string)
    ensures var f1 := OnKeyAsWritten(ArrowDownKey, -1, [c1, c2], hotelId).1;
      var f2 := OnKeyAsWritten(ArrowDownKey, f1, [c1, c2], hotelId).1;
      && f2 == 1
      && OnKeyAsWritten(EnterKey, f2, [c1], hotelId).0 == Threw
      && OnKey(EnterKey, f2, [c1], hotelId) == (Handled(None), 1)
  {
  }

  /**
   * The key handling: nothing happens over an empty list or for other keys;
   * ArrowDown moves to `min(i + 1, n - 1)`, which lies inside the list from
   * any focus at or after -1; ArrowUp moves to `max(i - 1, 0)`; Enter keeps
   * the focus and navigates exactly when the focus is on a row, to that row.
   */
  lemma OnKeySpec(key: string, focus: int, filtered: seq<Conversation>, hotelId: string)
    ensures |filtered| == 0 ==> OnKey(key, focus, filtered, hotelId) == (Ignored, focus)
    ensures key != ArrowDownKey && key != ArrowUpKey && key != EnterKey ==>
      OnKey(key, focus, filtered, hotelId) == (Ignored, focus)
    ensures |filtered| > 0 && key == ArrowDownKey ==>
      var r := OnKey(key, focus, filtered, hotelId);
      && r.0 == Handled(None)
      && r.1 == Min(focus + 1, |filtered| - 1)
      && (focus >= -1 ==> 0 <= r.1 < |filtered|)
    ensures |filtered| > 0 && key == ArrowUpKey ==>
      var r := OnKey(key, focus, filtered, hotelId);
      r.0 == Handled(None) && r.1 == Max(focus - 1, 0) && r.1 >= 0
    ensures |filtered| > 0 && key == EnterKey ==>
      var r := OnKey(key, focus, filtered, hotelId);
      && r.1 == focus
      && (r.0.Handled? && r.0.navigateTo.Some? <==> 0 <= focus < |filtered|)
      && (0 <= focus < |filtered| ==> r.0.navigateTo == Some(ConversationHref(hotelId, filtered[focus].id)))
  {
  }

  /** The list's focus state: -1 before any arrow key. */
  class ListFocus {
    var focusIdx: int

    ghost predicate Valid()
      reads this
    {
      focusIdx >= -1
    }

    constructor ()
      ensures Valid() && focusIdx == -1
    {
      focusIdx := -1;
    }

    /** The keydown listener over the current filtered rows. */
    method HandleKey(key: string, filtered: seq<Conversation>, hotelId: string) returns (outcome: KeyOutcome)
      requires Valid()
      modifies this
      ensures Valid()
      ensures (outcome, focusIdx) == OnKey(key, old(focusIdx), filtered, hotelId)
    {
      outcome := Ignored;
      if key != ArrowDownKey && key != ArrowUpKey && key != EnterKey {
        return;
      }
      if |filtered| == 0 {
        return;
      }
      outcome := Handled(None);
      if key == ArrowDownKey {
        focusIdx := if focusIdx + 1 <= |filtered| - 1 then focusIdx + 1 else |filtered| - 1;
      }
      if key == ArrowUpKey {
        focusIdx := if focusIdx - 1 >= 0 then focusIdx - 1 else 0;
      }
      if key == EnterKey && 0 <= focusIdx < |filtered| {
        outcome := Handled(Some(ConversationHref(hotelId, filtered[focusIdx].id)));
      }
    }
  }

  // ---------------------------------------------------------------------
  // Per-status counts

  /** The number of loaded conversations whose status is `status`. */
  function StatusCount(items: seq<Conversation>, status: string): nat {
    if items == [] then 0
    else StatusCount(items[..|items| - 1], status) + (if items[|items| - 1].status == status then 1 else 0)
  }

  lemma {:induction false} StatusCountOfAbsent(items: seq<Conversation>, status: string)
    requires forall j :: 0 <= j < |items| ==> items[j].status != status
    ensures StatusCount(items, status) == 0
  {
    if items != [] {
      var init := items[..|items| - 1];
      assert forall j :: 0 <= j < |init| ==> init[j] == items[j];
      StatusCountOfAbsent(init, status);
    }
  }

  const Tabs: set<string> := {"open", "pending", "closed"}

  /** One more conversation adds one to its own status's count and leaves every other count. */
  lemma CountStep(items: seq<Conversation>, i: nat)
    requires i < |items|
    ensures forall t :: StatusCount(items[..i + 1], t) == StatusCount(items[..i], t) + (if items[i].status == t then 1 else 0)
  {
    assert items[..i + 1][..i] == items[..i];
  }

  lemma SeenStep(items: seq<Conversation>, i: nat)
    requires i < |items|
    ensures (set j | 0 <= j < i + 1 :: items[j].status) == (set j | 0 <= j < i :: items[j].status) + {items[i].status}
  {
  }

  /**
   * The `counts` memo: a record that starts with the three tabs at 0 and
   * gains one per conversation under its status (a status outside the three
   * adds its own key).
   */
  method CountByStatus(items: seq<Conversation>) returns (counts: map<string, nat>)
    ensures counts.Keys == Tabs + set i | 0 <= i < |items| :: items[i].status
    ensures forall s :: s in counts ==> counts[s] == StatusCount(items, s)
  {
    counts := map["open" := 0, "pending" := 0, "closed" := 0];
    var i := 0;
    while i < |items|
      invariant 0 <= i <= |items|
      invariant counts.Keys == Tabs + set j | 0 <= j < i :: items[j].status
      invariant forall s :: s in counts ==> counts[s] == StatusCount(items[..i], s)
    {
      var s := items[i].status;
      if s !in counts {
        StatusCountOfAbsent(items[..i], s);
      }
      var before := if s in counts then counts[s] else 0;
      CountStep(items, i);
      SeenStep(items, i);
      counts := counts[s := before + 1];
      i := i + 1;
    }
    assert items[..i] == items;
  }

  /**
   * When every status is one of the three tabs, the three counts add up to
   * the number of loaded conversations.
   */
  lemma {:induction false} TabCountsCoverItems(items: seq<Conversation>)
    requires forall i :: 0 <= i < |items| ==> items[i].status in Tabs
    ensures StatusCount(items, "open") + StatusCount(items, "pending") + StatusCount(items, "closed") == |items|
  {
    if items != [] {
      var init := items[..|items| - 1];
      assert forall i :: 0 <= i < |init| ==> init[i] == items[i];
      TabCountsCoverItems(init);
    }
  }
}
