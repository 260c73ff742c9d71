/**
 * SuperHeroJsonRequestHandler (impl/super_hero_request_handler.py): the
 * backend keeps a hero's awards as one comma-separated string while the
 * table shows a list. Outgoing documents have each hero's "awards" split on
 * ',' and trimmed; incoming documents have the list joined with ','.
 * Documents are modelled decoded; JSON text is not.
 */
module SuperHero {
  import opened Wrappers
  import opened Strings

  datatype Json =
    | JNull
    | JBool(b: bool)
    | JNum(n: int)
    | JStr(s: string)
    | JArr(items: seq<Json>)
    | JObj(fields: map<string, Json>)

  /** The field of an outgoing document that holds the heroes. */
  const ListKey: string := "superHeroDtoList"
  const AwardsKey: string := "awards"

  // ---------------------------------------------------------------- outgoing

  /** The awards string split at commas, each piece stripped of surrounding whitespace. */
  function SplitAwards(s: string): (r: seq<Json>)
    ensures |r| == Count(s, ',') + 1
    ensures forall i :: 0 <= i < |r| ==> r[i].JStr? && IsStripped(r[i].s) && ',' !in r[i].s
  {
    var pieces := Split(s, ',');
    seq(|pieces|, i requires 0 <= i < |pieces| => JStr(Strip(pieces[i])))
  }

  /**
   * One hero on the way out: its awards string becomes the list of trimmed
   * pieces. KeyError without awards, AttributeError when awards is not a
   * string, TypeError when the hero is not an object.
   */
  function OutgoingHero(hero: Json): (r: Result<Json, PyError>)
    ensures r.Success? <==> hero.JObj? && AwardsKey in hero.fields && hero.fields[AwardsKey].JStr?
    ensures !hero.JObj? ==> r == Failure(TypeError)
    ensures hero.JObj? && AwardsKey !in hero.fields ==> r == Failure(KeyError(AwardsKey))
    ensures hero.JObj? && AwardsKey in hero.fields && !hero.fields[AwardsKey].JStr? ==> r == Failure(AttributeError)
    ensures r.Success? ==>
      && r.value.JObj? && r.value.fields.Keys == hero.fields.Keys
      && (forall k :: k in hero.fields && k != AwardsKey ==> r.value.fields[k] == hero.fields[k])
      && r.value.fields[AwardsKey] == JArr(SplitAwards(hero.fields[AwardsKey].s))
  {
    match hero
    case JObj(fields) =>
      if AwardsKey !in fields then Failure(KeyError(AwardsKey))
      else if !fields[AwardsKey].JStr? then Failure(AttributeError)
      else Success(JObj(fields[AwardsKey := JArr(SplitAwards(fields[AwardsKey].s))]))
    case _ => Failure(TypeError)
  }

  /** The heroes transformed one after another; the first failure ends the walk. */
  function OutgoingItems(heroes: seq<Json>): (r: Result<seq<Json>, PyError>)
    ensures r.Success? <==> forall i :: 0 <= i < |heroes| ==> OutgoingHero(heroes[i]).Success?
    ensures r.Success? ==>
      && |r.value| == |heroes|
      && forall i :: 0 <= i < |heroes| ==> r.value[i] == OutgoingHero(heroes[i]).value
  {
    if |heroes| == 0 then Success([])
    else
      var head := OutgoingHero(heroes[0]);
      var rest := OutgoingItems(heroes[1..]);
      if head.Failure? then Failure(head.error)
      else if rest.Failure? then Failure(rest.error)
      else Success([head.value] + rest.value)
  }

  /** The result of for_outgoing_request on a decoded document. */
  function OutgoingSpec(doc: Json): Result<Json, PyError> {
    match doc
    case JObj(fields) =>
      if ListKey !in fields then Failure(KeyError(ListKey))
      else (match fields[ListKey]
        case JArr(heroes) =>
          var r := OutgoingItems(heroes);
          if r.Failure? then Failure(r.error) else Success(JObj(fields[ListKey := JArr(r.value)]))
        // iterating an object yields its keys and iterating a string its characters: both fail at ['awards'] unless empty
        case JObj(m) => if m == map[] then Success(doc) else Failure(TypeError)
        case JStr(s) => if s == "" then Success(doc) else Failure(TypeError)
        case _ => Failure(TypeError))
    case _ => Failure(TypeError)
  }

  /** What remains of a walk once some heroes are done. */
  function Prepend(done: seq<Json>, rest: Result<seq<Json>, PyError>): Result<seq<Json>, PyError> {
    if rest.Failure? then rest else Success(done + rest.value)
  }

  lemma PrependNothing(rest: Result<seq<Json>, PyError>)
    ensures Prepend([], rest) == rest
  {
    if rest.Success? {
      assert [] + rest.value == rest.value;
    }
  }

  lemma PrependTwice(a: seq<Json>, b: seq<Json>, rest: Result<seq<Json>, PyError>)
    ensures Prepend(a, Prepend(b, rest)) == Prepend(a + b, rest)
  {
    if rest.Success? {
      assert a + (b + rest.value) == (a + b) + rest.value;
    }
  }

  /** One step of the outgoing walk over heroes[i..]. */
  lemma OutgoingStep(heroes: seq<Json>, i: nat)
    requires i < |heroes|
    ensures var hero := OutgoingHero(heroes[i]);
      OutgoingItems(heroes[i..])
        == if hero.Failure? then Failure(hero.error) else Prepend([hero.value], OutgoingItems(heroes[i + 1..]))
  {
    assert heroes[i..][0] == heroes[i] && heroes[i..][1..] == heroes[i + 1..];
  }

  /** Rewriting the hero at i extends the done prefix by it and leaves the rest of the list as it was. */
  lemma UpdateInPlace(heroes: seq<Json>, list: seq<Json>, i: nat, v: Json)
    requires i < |heroes| == |list| && heroes[i..] == list[i..]
    ensures heroes[i := v][..i + 1] == heroes[..i] + [v]
    ensures heroes[i := v][i + 1..] == list[i + 1..]
  {
    assert heroes[i + 1..] == heroes[i..][1..];
  }

  /** When the walk has reached the end of the list, what remains is the done prefix. */
  lemma WalkDone(heroes: seq<Json>, rest: Result<seq<Json>, PyError>)
    requires rest == Success([])
    ensures Prepend(heroes[..|heroes|], rest) == Success(heroes)
  {
    assert heroes[..|heroes|] + [] == heroes;
  }

  /** One iteration of the outgoing walk: a failing hero ends it with that error, otherwise the done prefix grows by one. */
  lemma OutgoingAdvance(list: seq<Json>, heroes: seq<Json>, i: nat)
    requires i < |heroes| == |list| && heroes[i..] == list[i..]
    requires OutgoingItems(list) == Prepend(heroes[..i], OutgoingItems(list[i..]))
    ensures var hero := OutgoingHero(heroes[i]);
      && (hero.Failure? ==> OutgoingItems(list) == Failure(hero.error))
      && (hero.Success? ==>
        && heroes[i := hero.value][i + 1..] == list[i + 1..]
        && OutgoingItems(list) == Prepend(heroes[i := hero.value][..i + 1], OutgoingItems(list[i + 1..])))
  {
    var hero := OutgoingHero(heroes[i]);
    OutgoingStep(list, i);
    if hero.Success? {
      PrependTwice(heroes[..i], [hero.value], OutgoingItems(list[i + 1..]));
      UpdateInPlace(heroes, list, i, hero.value);
    }
  }

  /** The loop of for_outgoing_request: each hero's awards rewritten in place, in list order. */
  method OutgoingWalk(list: seq<Json>) returns (r: Result<seq<Json>, PyError>)
    ensures r == OutgoingItems(list)
  {
    var heroes := list;
    var i := 0;
    PrependNothing(OutgoingItems(list));
    assert list[0..] == list;
    while i < |heroes|
      invariant 0 <= i <= |heroes| == |list|
      invariant heroes[i..] == list[i..]
      invariant OutgoingItems(list) == Prepend(heroes[..i], OutgoingItems(list[i..]))
    {
      var hero := OutgoingHero(heroes[i]);
      OutgoingAdvance(list, heroes, i);
      if hero.Failure? {
        return Failure(hero.error);
      }
      heroes := heroes[i := hero.value];
      i := i + 1;
    }
    assert list[i..] == [];
    WalkDone(heroes, OutgoingItems(list[i..]));
    r := Success(heroes);
  }

  /** for_outgoing_request on a decoded document. */
  method ForOutgoingRequest(doc: Json) returns (r: Result<Json, PyError>)
    ensures r == OutgoingSpec(doc)
  {
    if !doc.JObj? {
      return Failure(TypeError);
    }
    if ListKey !in doc.fields {
      return Failure(KeyError(ListKey));
    }
    var list := doc.fields[ListKey];
    if !list.JArr? {
      r := OutgoingSpec(doc);
      return;
    }
    var heroes := OutgoingWalk(list.items);
    if heroes.Failure? {
      return Failure(heroes.error);
    }
    r := Success(JObj(doc.fields[ListKey := JArr(heroes.value)]));
  }

  /** The transform applies once only: on its own output the awards are lists, which cannot be split. */
  lemma OutgoingNotRepeatable(doc: Json)
    requires OutgoingSpec(doc).Success?
    requires doc.fields[ListKey].JArr? && |doc.fields[ListKey].items| > 0
    ensures OutgoingSpec(OutgoingSpec(doc).value) == Failure(AttributeError)
  {
    var heroes := doc.fields[ListKey].items;
    var once := OutgoingItems(heroes).value;
    assert OutgoingHero(once[0]) == Failure(AttributeError);
  }

  // ---------------------------------------------------------------- incoming

  /** The strings of a list of JSON strings. */
  function AwardTexts(xs: seq<Json>): (r: seq<string>)
    requires forall i :: 0 <= i < |xs| ==> xs[i].JStr?
    ensures |r| == |xs| && forall i :: 0 <= i < |xs| ==> r[i] == xs[i].s
  {
    seq(|xs|, i requires 0 <= i < |xs| => xs[i].s)
  }

  /**
   * The value's strings joined with commas; defined when every item it
   * iterates over is a string. A list gives its strings with a comma between
   * each two, a string gives its characters with a comma between each two,
   * anything else raises TypeError.
   */
  function JoinAwards(value: Json): (r: Result<string, PyError>)
    ensures r.Failure? ==> r.error == TypeError
    ensures value.JArr? ==> (r.Success? <==> forall i :: 0 <= i < |value.items| ==> value.items[i].JStr?)
    ensures value.JArr? && r.Success? ==> r.value == Join(AwardTexts(value.items), ',')
    ensures value.JStr? ==>
      && r.Success?
      && |r.value| == (if |value.s| == 0 then 0 else 2 * |value.s| - 1)
      && forall i :: 0 <= i < |value.s| ==> r.value[2 * i] == value.s[i] && (i < |value.s| - 1 ==> r.value[2 * i + 1] == ',')
    ensures value.JObj? ==> r == if value.fields == map[] then Success("") else Failure(TypeError)
    ensures value.JNull? || value.JBool? || value.JNum? ==> r == Failure(TypeError)
  {
    match value
    case JArr(items) =>
      if forall i :: 0 <= i < |items| ==> items[i].JStr?
      then Success(Join(AwardTexts(items), ','))
      else Failure(TypeError)
    case JStr(s) =>
      JoinChars(s, ',');
      Success(Join(Chars(s), ','))
    case JObj(m) => if m == map[] then Success("") else Failure(TypeError)
    case _ => Failure(TypeError)
  }

  /** One hero on the way in: its awards list becomes one comma-separated string. */
  function IncomingHero(hero: Json): (r: Result<Json, PyError>)
    ensures !hero.JObj? ==> r == Failure(TypeError)
    ensures hero.JObj? && AwardsKey !in hero.fields ==> r == Failure(KeyError(AwardsKey))
    ensures hero.JObj? && AwardsKey in hero.fields ==> (r.Success? <==> JoinAwards(hero.fields[AwardsKey]).Success?)
    ensures hero.JObj? && AwardsKey in hero.fields && JoinAwards(hero.fields[AwardsKey]).Failure? ==> r == Failure(TypeError)
    ensures r.Success? ==>
      && hero.JObj? && r.value.JObj? && r.value.fields.Keys == hero.fields.Keys
      && (forall k :: k in hero.fields && k != AwardsKey ==> r.value.fields[k] == hero.fields[k])
      && JoinAwards(hero.fields[AwardsKey]).Success?
      && r.value.fields[AwardsKey] == JStr(JoinAwards(hero.fields[AwardsKey]).value)
  {
    match hero
    case JObj(fields) =>
      if AwardsKey !in fields then Failure(KeyError(AwardsKey))
      else
        var joined := JoinAwards(fields[AwardsKey]);
        if joined.Failure? then Failure(joined.error)
        else Success(JObj(fields[AwardsKey := JStr(joined.value)]))
    case _ => Failure(TypeError)
  }

  function IncomingItems(heroes: seq<Json>): (r: Result<seq<Json>, PyError>)
    ensures r.Success? <==> forall i :: 0 <= i < |heroes| ==> IncomingHero(heroes[i]).Success?
    ensures r.Success? ==>
      && |r.value| == |heroes|
      && forall i :: 0 <= i < |heroes| ==> r.value[i] == IncomingHero(heroes[i]).value
  {
    if |heroes| == 0 then Success([])
    else
      var head := IncomingHero(heroes[0]);
      var rest := IncomingItems(heroes[1..]);
      if head.Failure? then Failure(head.error)
      else if rest.Failure? then Failure(rest.error)
      else Success([head.value] + rest.value)
  }

  /** The result of for_incoming_response on a decoded document (a list of heroes). */
  function IncomingSpec(doc: Json): Result<Json, PyError> {
    match doc
    case JArr(heroes) =>
      var r := IncomingItems(heroes);
      if r.Failure? then Failure(r.error) else Success(JArr(r.value))
    case JObj(m) => if m == map[] then Success(doc) else Failure(TypeError)
    case JStr(s) => if s == "" then Success(doc) else Failure(TypeError)
    case _ => Failure(TypeError)
  }

  /** One step of the incoming walk over heroes[i..]. */
  lemma IncomingStep(heroes: seq<Json>, i: nat)
    requires i < |heroes|
    ensures var hero := IncomingHero(heroes[i]);
      IncomingItems(heroes[i..])
        == if hero.Failure? then Failure(hero.error) else Prepend([hero.value], IncomingItems(heroes[i + 1..]))
  {
    assert heroes[i..][0] == heroes[i] && heroes[i..][1..] == heroes[i + 1..];
  }

  /** One iteration of the incoming walk: a failing hero ends it with that error, otherwise the done prefix grows by one. */
  lemma IncomingAdvance(list: seq<Json>, heroes: seq<Json>, i: nat)
    requires i < |heroes| == |list| && heroes[i..] == list[i..]
    requires IncomingItems(list) == Prepend(heroes[..i], IncomingItems(list[i..]))
    ensures var hero := IncomingHero(heroes[i]);
      && (hero.Failure? ==> IncomingItems(list) == Failure(hero.error))
      && (hero.Success? ==>
        && heroes[i := hero.value][i + 1..] == list[i + 1..]
        && IncomingItems(list) == Prepend(heroes[i := hero.value][..i + 1], IncomingItems(list[i + 1..])))
  {
    var hero := IncomingHero(heroes[i]);
    IncomingStep(list, i);
    if hero.Success? {
      PrependTwice(heroes[..i], [hero.value], IncomingItems(list[i + 1..]));
      UpdateInPlace(heroes, list, i, hero.value);
    }
  }

  /** The loop of for_incoming_response: each hero's awards rewritten in place, in list order. */
  method IncomingWalk(list: seq<Json>) returns (r: Result<seq<Json>, PyError>)
    ensures r == IncomingItems(list)
  {
    var heroes := list;
    var i := 0;
    PrependNothing(IncomingItems(list));
    assert list[0..] == list;
    while i < |heroes|
      invariant 0 <= i <= |heroes| == |list|
      invariant heroes[i..] == list[i..]
      invariant IncomingItems(list) == Prepend(heroes[..i], IncomingItems(list[i..]))
    {
      var hero := IncomingHero(heroes[i]);
      IncomingAdvance(list, heroes, i);
      if hero.Failure? {
        return Failure(hero.error);
      }
      heroes := heroes[i := hero.value];
      i := i + 1;
    }
    assert list[i..] == [];
    WalkDone(heroes, IncomingItems(list[i..]));
    r := Success(heroes);
  }

  /** for_incoming_response on a decoded document. */
  method ForIncomingResponse(doc: Json) returns (r: Result<Json, PyError>)
    ensures r == IncomingSpec(doc)
  {
    if !doc.JArr? {
      r := IncomingSpec(doc);
      return;
    }
    var heroes := IncomingWalk(doc.items);
    if heroes.Failure? {
      return Failure(heroes.error);
    }
    r := Success(JArr(heroes.value));
  }

  // ---------------------------------------------------------------- round trips

  /** When every piece is already trimmed, trimming changes nothing. */
  lemma SplitAwardsOfTrimmed(s: string)
    requires forall p :: p in Split(s, ',') ==> IsStripped(p)
    ensures AwardTexts(SplitAwards(s)) == Split(s, ',')
  {
    var pieces := Split(s, ',');
    forall i | 0 <= i < |pieces| ensures Strip(pieces[i]) == pieces[i] {
      StripKeepsStripped(pieces[i]);
    }
  }

  /** Joining the split awards gives back the awards string when its pieces are already trimmed. */
  lemma JoinOfSplitAwards(s: string)
    requires forall p :: p in Split(s, ',') ==> IsStripped(p)
    ensures JoinAwards(JArr(SplitAwards(s))) == Success(s)
  {
    var awards := SplitAwards(s);
    assert JoinAwards(JArr(awards)) == Success(Join(AwardTexts(awards), ','));
    SplitAwardsOfTrimmed(s);
    JoinSplit(s, ',');
  }

  /** Joining what the outgoing transform split gives back the original awards string when its pieces are already trimmed. */
  lemma IncomingAfterOutgoing(hero: Json)
    requires hero.JObj? && AwardsKey in hero.fields && hero.fields[AwardsKey].JStr?
    requires forall p :: p in Split(hero.fields[AwardsKey].s, ',') ==> IsStripped(p)
    ensures IncomingHero(OutgoingHero(hero).value) == Success(hero)
  {
    var s := hero.fields[AwardsKey].s;
    var out := hero.fields[AwardsKey := JArr(SplitAwards(s))];
    assert OutgoingHero(hero) == Success(JObj(out));
    JoinOfSplitAwards(s);
    assert IncomingHero(JObj(out)) == Success(JObj(out[AwardsKey := JStr(s)]));
    assert out[AwardsKey := JStr(s)] == hero.fields;
  }

  /** Splitting the joined awards gives the list back when its items are trimmed, comma-free strings. */
  lemma SplitOfJoinedAwards(xs: seq<Json>)
    requires |xs| > 0 && forall i :: 0 <= i < |xs| ==> xs[i].JStr? && ',' !in xs[i].s && IsStripped(xs[i].s)
    ensures SplitAwards(Join(AwardTexts(xs), ',')) == xs
  {
    var strs := AwardTexts(xs);
    SplitJoin(strs, ',');
    var awards := SplitAwards(Join(strs, ','));
    forall i | 0 <= i < |xs| ensures awards[i] == xs[i] {
      StripKeepsStripped(strs[i]);
    }
  }

  /**
   * Incoming then outgoing gives back the hero itself, when its awards are a
   * non-empty list of trimmed, comma-free strings.
   */
  lemma OutgoingAfterIncoming(hero: Json)
    requires hero.JObj? && AwardsKey in hero.fields && hero.fields[AwardsKey].JArr?
    requires var xs := hero.fields[AwardsKey].items;
      |xs| > 0 && forall i :: 0 <= i < |xs| ==> xs[i].JStr? && ',' !in xs[i].s && IsStripped(xs[i].s)
    ensures IncomingHero(hero).Success?
    ensures OutgoingHero(IncomingHero(hero).value) == Success(hero)
  {
    var xs := hero.fields[AwardsKey].items;
    var joined := Join(AwardTexts(xs), ',');
    assert JoinAwards(JArr(xs)) == Success(joined);
    var incoming := hero.fields[AwardsKey := JStr(joined)];
    assert IncomingHero(hero) == Success(JObj(incoming));
    SplitOfJoinedAwards(xs);
    assert OutgoingHero(JObj(incoming)) == Success(JObj(incoming[AwardsKey := JArr(xs)]));
    assert incoming[AwardsKey := JArr(xs)] == hero.fields;
  }

  // ---------------------------------------------------------------- handlers

  datatype Verb = Get | Post | Put

  /** The call handed on to the generic request handler. */
  datatype Delegated = Delegated(verb: Verb, url: string, body: Option<Json>)

  /** handle_get: passed through untouched. */
  function HandleGet(url: string): (d: Delegated)
    ensures d.verb == Get && d.url == url && d.body.None?
  {
    Delegated(Get, url, None)
  }

  /** handle_post: the outgoing transform, once, then the generic post. */
  method HandlePost(url: string, doc: Json) returns (d: Result<Delegated, PyError>)
    ensures d.Success? <==> OutgoingSpec(doc).Success?
    ensures d.Success? ==> d.value == Delegated(Post, url, Some(OutgoingSpec(doc).value))
    ensures d.Failure? ==> d.error == OutgoingSpec(doc).error
  {
    var body := ForOutgoingRequest(doc);
    if body.Failure? {
      return Failure(body.error);
    }
    d := Success(Delegated(Post, url, Some(body.value)));
  }

  /** handle_put: the outgoing transform, once, then the generic put. */
  method HandlePut(url: string, doc: Json) returns (d: Result<Delegated, PyError>)
    ensures d.Success? <==> OutgoingSpec(doc).Success?
    ensures d.Success? ==> d.value == Delegated(Put, url, Some(OutgoingSpec(doc).value))
    ensures d.Failure? ==> d.error == OutgoingSpec(doc).error
  {
    var body := ForOutgoingRequest(doc);
    if body.Failure? {
      return Failure(body.error);
    }
    d := Success(Delegated(Put, url, Some(body.value)));
  }
}
