/**
 * The WebSocket addresses of a conversation: the staff endpoint, with the
 * access token as an optional query parameter, and the guest endpoint,
 * which names the guest session. The configured socket base and
 * `encodeURIComponent` are parameters.
 */
module Ws {
  import opened Wrappers
  import opened JsStrings

  const StaffPath := "/ws/hotel/staff/"
  const GuestPath := "/ws/hotel/guest/"

  /** The staff socket address; a truthy token is appended, encoded. */
  function StaffWsUrl(wsBase: string, hotelId: string, conversationId: string, token: Option<string>,
                      encode: string -> string): string
  {
    var base := wsBase + StaffPath + "?hotel=" + hotelId + "&conversation=" + conversationId;
    if Truthy(token) then base + "&token=" + encode(token.value) else base
  }

  /** The guest socket address. */
  function GuestWsUrl(wsBase: string, hotelId: string, conversationId: string, guestSessionId: string): string {
    wsBase + GuestPath + "?hotel=" + hotelId + "&conversation=" + conversationId + "&guest_session=" + guestSessionId
  }

  /** The query string's parameters, as name and value pairs split at `&` and at each pair's first `=`. */
  function Params(url: string): (r: seq<(string, string)>)
  {
    var pieces := Split(AfterFirst(url, '?'), '&');
    seq(|pieces|, i requires 0 <= i < |pieces| => (BeforeFirst(pieces[i], '='), AfterFirst(pieces[i], '=')))
  }

  /** A name (without `=`) and its value, written `name=value`, read back as the pair. */
  lemma ParamReadsBack(name: string, value: string)
    requires '=' !in name
    ensures BeforeFirst(name + "=" + value, '=') == name && AfterFirst(name + "=" + value, '=') == value
  {
    FirstAfterHead(name, '=', value);
  }

  /** Reading the parameters of `prefix?query` where the prefix has no `?` and the query is the given pieces joined by `&`. */
  lemma QueryReadsBack(prefix: string, pieces: seq<string>)
    requires '?' !in prefix && pieces != []
    requires forall i :: 0 <= i < |pieces| ==> '&' !in pieces[i]
    ensures var ps := Params(prefix + "?" + Join(pieces, "&"));
      |ps| == |pieces| &&
      forall i :: 0 <= i < |pieces| ==> ps[i] == (BeforeFirst(pieces[i], '='), AfterFirst(pieces[i], '='))
  {
    var q := Join(pieces, "&");
    FirstAfterHead(prefix, '?', q);
    assert prefix + "?" + q == prefix + ['?'] + q;
    SplitJoin(pieces, '&');
  }

  lemma JoinTwo(a: string, b: string, sep: string)
    ensures Join([a, b], sep) == a + sep + b
  {
    assert [a, b][1..] == [b];
  }

  lemma JoinThree(a: string, b: string, c: string, sep: string)
    ensures Join([a, b, c], sep) == a + sep + b + sep + c
  {
    assert [a, b, c][1..] == [b, c];
    JoinTwo(b, c, sep);
  }

  /** A parameter written `name=value`. */
  function Render(p: (string, string)): string {
    p.0 + "=" + p.1
  }

  /** An address made of a prefix, `?`, and the parameters written out and joined by `&`. */
  function Address(prefix: string, ps: seq<(string, string)>): string {
    prefix + "?" + Join(seq(|ps|, i requires 0 <= i < |ps| => Render(ps[i])), "&")
  }

  /** A parameter whose name has no `=` and whose written form has no `&`. */
  predicate PlainPair(p: (string, string)) {
    '=' !in p.0 && '&' !in Render(p)
  }

  /** The parameters of an address read back as the pairs it was made of. */
  lemma AddressReadsBack(prefix: string, ps: seq<(string, string)>)
    requires '?' !in prefix && ps != []
    requires forall i :: 0 <= i < |ps| ==> PlainPair(ps[i])
    ensures Params(Address(prefix, ps)) == ps
  {
    var pieces := seq(|ps|, i requires 0 <= i < |ps| => Render(ps[i]));
    QueryReadsBack(prefix, pieces);
    var r := Params(Address(prefix, ps));
    forall i | 0 <= i < |ps|
      ensures r[i] == ps[i]
    {
      ParamReadsBack(ps[i].0, ps[i].1);
    }
  }

  /** The parameter names hold neither `=` nor `&`. */
  lemma NamesPlain()
    ensures '=' !in "hotel" && '&' !in "hotel"
    ensures '=' !in "conversation" && '&' !in "conversation"
    ensures '=' !in "token" && '&' !in "token"
    ensures '=' !in "guest_session" && '&' !in "guest_session"
  {
  }

  lemma PathsPlain()
    ensures '?' !in StaffPath && '?' !in GuestPath
  {
  }

  /** A name free of `=` and `&` with an `&`-free value is a plain parameter. */
  lemma PairPlain(name: string, value: string)
    requires '=' !in name && '&' !in name && '&' !in value
    ensures PlainPair((name, value))
  {
  }

  lemma PrefixPlain(wsBase: string, path: string)
    requires '?' !in wsBase && '?' !in path
    ensures '?' !in wsBase + path
  {
  }

  /** The fixed text before each parameter value is the separator, the name and `=`. */
  lemma LiteralsSplit()
    ensures "?hotel=" == "?" + "hotel" + "="
    ensures "&conversation=" == "&" + "conversation" + "="
    ensures "&token=" == "&" + "token" + "="
    ensures "&guest_session=" == "&" + "guest_session" + "="
  {
  }

  /** Regrouping `p + (s1 + n1 + e) + v1 + (s2 + n2 + e) + v2` as `p + s1 + (n1 + e + v1) + s2 + (n2 + e + v2)`. */
  lemma RegroupTwo(p: string, s1: string, n1: string, e: string, v1: string, s2: string, n2: string, v2: string)
    ensures p + (s1 + n1 + e) + v1 + (s2 + n2 + e) + v2 == p + s1 + (n1 + e + v1) + s2 + (n2 + e + v2)
  {
  }

  /** Regrouping the joined parameters after the prefix. */
  lemma AssocJoined(u: string, a: string, s: string, b: string, c: string)
    ensures u + (a + s + b) == u + a + s + b
    ensures u + (a + s + b + s + c) == u + a + s + b + s + c
  {
  }

  lemma RegroupNext(u: string, s: string, n: string, e: string, v: string)
    ensures u + (s + n + e) + v == u + s + (n + e + v)
  {
  }

  /** The staff address is the address of its hotel, conversation and (truthy) token parameters. */
  lemma StaffUrlIsAddress(wsBase: string, hotelId: string, conversationId: string, token: Option<string>,
                          encode: string -> string)
    ensures StaffWsUrl(wsBase, hotelId, conversationId, token, encode) ==
      Address(wsBase + StaffPath, [("hotel", hotelId), ("conversation", conversationId)] +
        (if Truthy(token) then [("token", encode(token.value))] else []))
  {
    var prefix := wsBase + StaffPath;
    var h, c := Render(("hotel", hotelId)), Render(("conversation", conversationId));
    var base := wsBase + StaffPath + "?hotel=" + hotelId + "&conversation=" + conversationId;
    LiteralsSplit();
    RegroupTwo(prefix, "?", "hotel", "=", hotelId, "&", "conversation", conversationId);
    assert base == prefix + "?" + h + "&" + c;
    if Truthy(token) {
      var ps := [("hotel", hotelId), ("conversation", conversationId), ("token", encode(token.value))];
      var t := Render(("token", encode(token.value)));
      assert [("hotel", hotelId), ("conversation", conversationId)] + [("token", encode(token.value))] == ps;
      assert StaffWsUrl(wsBase, hotelId, conversationId, token, encode) == base + "&token=" + encode(token.value);
      RegroupNext(base, "&", "token", "=", encode(token.value));
      assert seq(|ps|, i requires 0 <= i < |ps| => Render(ps[i])) == [h, c, t];
      JoinThree(h, c, t, "&");
      AssocJoined(prefix + "?", h, "&", c, t);
    } else {
      var ps := [("hotel", hotelId), ("conversation", conversationId)];
      assert ps + [] == ps;
      assert StaffWsUrl(wsBase, hotelId, conversationId, token, encode) == base;
      assert seq(|ps|, i requires 0 <= i < |ps| => Render(ps[i])) == [h, c];
      JoinTwo(h, c, "&");
      AssocJoined(prefix + "?", h, "&", c, c);
    }
  }

  /**
   * The staff address carries the hotel, the conversation and, for a
   * truthy token, the encoded token, in that order, as long as the socket
   * base has no `?` and no value has an `&`.
   */
  lemma StaffUrlParams(wsBase: string, hotelId: string, conversationId: string, token: Option<string>,
                       encode: string -> string)
    requires '?' !in wsBase
    requires '&' !in hotelId && '&' !in conversationId
    requires Truthy(token) ==> '&' !in encode(token.value)
    ensures Params(StaffWsUrl(wsBase, hotelId, conversationId, token, encode)) ==
      [("hotel", hotelId), ("conversation", conversationId)] +
      (if Truthy(token) then [("token", encode(token.value))] else [])
  {
    var ps := [("hotel", hotelId), ("conversation", conversationId)] +
      (if Truthy(token) then [("token", encode(token.value))] else []);
    StaffUrlIsAddress(wsBase, hotelId, conversationId, token, encode);
    PathsPlain();
    PrefixPlain(wsBase, StaffPath);
    NamesPlain();
    PairPlain("hotel", hotelId);
    PairPlain("conversation", conversationId);
    if Truthy(token) {
        PairPlain("token", encode(token.value));
    }
    AddressReadsBack(wsBase + StaffPath, ps);
  }

  /** Without a token the address is the base form, which the address with a token extends. */
  lemma StaffUrlTokenExtends(wsBase: string, hotelId: string, conversationId: string, token: Option<string>,
                             encode: string -> string)
    ensures var plain := StaffWsUrl(wsBase, hotelId, conversationId, None, encode);
      && StaffWsUrl(wsBase, hotelId, conversationId, Some(""), encode) == plain
      && (Truthy(token) ==> StaffWsUrl(wsBase, hotelId, conversationId, token, encode) == plain + "&token=" + encode(token.value))
  {
  }

  /** The guest address is the address of its hotel, conversation and guest session parameters. */
  lemma GuestUrlIsAddress(wsBase: string, hotelId: string, conversationId: string, guestSessionId: string)
    ensures GuestWsUrl(wsBase, hotelId, conversationId, guestSessionId) ==
      Address(wsBase + GuestPath, [("hotel", hotelId), ("conversation", conversationId), ("guest_session", guestSessionId)])
  {
    var prefix := wsBase + GuestPath;
    var ps := [("hotel", hotelId), ("conversation", conversationId), ("guest_session", guestSessionId)];
    var h, c, g := Render(ps[0]), Render(ps[1]), Render(ps[2]);
    var base := wsBase + GuestPath + "?hotel=" + hotelId + "&conversation=" + conversationId;
    LiteralsSplit();
    RegroupTwo(prefix, "?", "hotel", "=", hotelId, "&", "conversation", conversationId);
    assert base == prefix + "?" + h + "&" + c;
    RegroupNext(base, "&", "guest_session", "=", guestSessionId);
    assert seq(|ps|, i requires 0 <= i < |ps| => Render(ps[i])) == [h, c, g];
    JoinThree(h, c, g, "&");
    AssocJoined(prefix + "?", h, "&", c, g);
  }

  /** The guest address carries the hotel, the conversation and the guest session, in that order. */
  lemma GuestUrlParams(wsBase: string, hotelId: string, conversationId: string, guestSessionId: string)
    requires '?' !in wsBase
    requires '&' !in hotelId && '&' !in conversationId && '&' !in guestSessionId
    ensures Params(GuestWsUrl(wsBase, hotelId, conversationId, guestSessionId)) ==
      [("hotel", hotelId), ("conversation", conversationId), ("guest_session", guestSessionId)]
  {
    var ps := [("hotel", hotelId), ("conversation", conversationId), ("guest_session", guestSessionId)];
    GuestUrlIsAddress(wsBase, hotelId, conversationId, guestSessionId);
    PathsPlain();
    PrefixPlain(wsBase, GuestPath);
    NamesPlain();
    PairPlain("hotel", hotelId);
    PairPlain("conversation", conversationId);
    PairPlain("guest_session", guestSessionId);
    AddressReadsBack(wsBase + GuestPath, ps);
  }
}
