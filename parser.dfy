/** `parseEvents` (src/parser.ts, repeated verbatim in src/build.ts): each exported
    event handler's name is resolved to an event-type code and the handlers are
    deduplicated on that code, first seen wins. */
module EventParser {
  import opened Wrappers

  /** The `cause` of the error thrown for an unresolvable handler name. */
  const ParsingCause := "dressed-parsing"

  /** The two name-to-code tables: `ApplicationWebhookEventType` (webhook events) and
      `GatewayDispatchEvents` (gateway dispatches). They may share names. */
  datatype EventTypes = EventTypes(webhook: map<string, string>, gateway: map<string, string>)

  /** An exported event handler: its name and the file it came from. */
  datatype RawEvent = RawEvent(name: string, path: string)

  /** The object `createData` returns: `{ type }`. */
  datatype CreatedData = CreatedData(eventType: string)

  /** The `Error` thrown by `createData`: its cause and the handler name it reports. */
  datatype ResolveError = ResolveError(cause: string, name: string)

  /** A parsed event: the raw handler's fields together with the created `type`. */
  datatype EventData = EventData(name: string, path: string, eventType: string)

  /** A warning the parser reports for a skipped item. */
  datatype Warning = Unresolved(error: ResolveError) | Conflict(name: string)

  datatype Parsed = Parsed(events: seq<EventData>, warnings: seq<Warning>)

  /** `createData`: the webhook table is consulted first and the gateway table only
      when the webhook table has no entry (`??`); a missing or empty code (`!type`)
      throws the "dressed-parsing" error. */
  function CreateData(ns: EventTypes, item: RawEvent): (r: Result<CreatedData, ResolveError>)
    ensures item.name in ns.webhook && ns.webhook[item.name] != "" ==>
              r == Success(CreatedData(ns.webhook[item.name]))
    ensures item.name !in ns.webhook && item.name in ns.gateway && ns.gateway[item.name] != "" ==>
              r == Success(CreatedData(ns.gateway[item.name]))
    ensures ((item.name in ns.webhook && ns.webhook[item.name] == "")
             || (item.name !in ns.webhook && (item.name !in ns.gateway || ns.gateway[item.name] == ""))) ==>
              r == Failure(ResolveError(ParsingCause, item.name))
  {
    var found := match Get(ns.webhook, item.name)
      case Some(code) => Some(code)
      case None => Get(ns.gateway, item.name);
    if found.None? || found.value == "" then Failure(ResolveError(ParsingCause, item.name))
    else Success(CreatedData(found.value))
  }

  predicate Resolves(ns: EventTypes, item: RawEvent) {
    CreateData(ns, item).Success?
  }

  function TypeOf(ns: EventTypes, item: RawEvent): string
    requires Resolves(ns, item)
  {
    CreateData(ns, item).value.eventType
  }

  function ToEvent(ns: EventTypes, item: RawEvent): EventData
    requires Resolves(ns, item)
  {
    EventData(item.name, item.path, TypeOf(ns, item))
  }

  predicate UniqueTypes(events: seq<EventData>) {
    forall i, j :: 0 <= i < j < |events| ==> events[i].eventType != events[j].eventType
  }

  function TypesOf(events: seq<EventData>): set<string> {
    set e | e in events :: e.eventType
  }

  /** The parser loop: items are taken in order; an item whose name does not resolve
      is skipped with its error, an item whose code was already taken is skipped with
      a conflict warning naming it, and any other item is appended. */
  function ParseEvents(ns: EventTypes, items: seq<RawEvent>): Parsed
    decreases |items|
  {
    if items == [] then Parsed([], [])
    else
      var prev := ParseEvents(ns, items[..|items| - 1]);
      var item := items[|items| - 1];
      match CreateData(ns, item)
      case Failure(e) => Parsed(prev.events, prev.warnings + [Unresolved(e)])
      case Success(d) =>
        if d.eventType in TypesOf(prev.events) then
          Parsed(prev.events, prev.warnings + [Conflict(item.name)])
        else
          Parsed(prev.events + [EventData(item.name, item.path, d.eventType)], prev.warnings)
  }

  // ---------------------------------------------------------------------------
  // An independent description of the result, item by item.

  /** The codes of all resolvable items. */
  ghost function ResolvedTypes(ns: EventTypes, items: seq<RawEvent>): set<string> {
    set i | 0 <= i < |items| && Resolves(ns, items[i]) :: TypeOf(ns, items[i])
  }

  /** Item `i` resolves and no earlier resolvable item has its code. */
  ghost predicate FirstOfType(ns: EventTypes, items: seq<RawEvent>, i: int) {
    && 0 <= i < |items|
    && Resolves(ns, items[i])
    && forall j :: 0 <= j < i && Resolves(ns, items[j]) ==> TypeOf(ns, items[j]) != TypeOf(ns, items[i])
  }

  /** The items that are first of their code, in input order. */
  ghost function FirstSeen(ns: EventTypes, items: seq<RawEvent>): seq<EventData>
    decreases |items|
  {
    if items == [] then []
    else
      FirstSeen(ns, items[..|items| - 1])
        + (if FirstOfType(ns, items, |items| - 1) then [ToEvent(ns, items[|items| - 1])] else [])
  }

  function CountResolving(ns: EventTypes, items: seq<RawEvent>): nat {
    if items == [] then 0
    else CountResolving(ns, items[..|items| - 1]) + (if Resolves(ns, items[|items| - 1]) then 1 else 0)
  }

  function CountConflicts(ws: seq<Warning>): nat {
    if ws == [] then 0
    else CountConflicts(ws[..|ws| - 1]) + (if ws[|ws| - 1].Conflict? then 1 else 0)
  }

  // ---------------------------------------------------------------------------
  // Properties of the parser.

  lemma ResolvedTypesSnoc(ns: EventTypes, items: seq<RawEvent>)
    requires items != []
    ensures ResolvedTypes(ns, items) ==
              ResolvedTypes(ns, items[..|items| - 1])
                + (if Resolves(ns, items[|items| - 1]) then {TypeOf(ns, items[|items| - 1])} else {})
  {
    var pre := items[..|items| - 1];
    forall i | 0 <= i < |pre| ensures pre[i] == items[i] { }
  }

  /** The codes in the output are exactly the codes of the resolvable items. */
  lemma {:induction false} ParsedTypes(ns: EventTypes, items: seq<RawEvent>)
    ensures TypesOf(ParseEvents(ns, items).events) == ResolvedTypes(ns, items)
  {
    if items != [] {
      var pre := items[..|items| - 1];
      ParsedTypes(ns, pre);
      ResolvedTypesSnoc(ns, items);
      var prev := ParseEvents(ns, pre).events;
      var item := items[|items| - 1];
      if Resolves(ns, item) && TypeOf(ns, item) !in TypesOf(prev) {
        var e := EventData(item.name, item.path, TypeOf(ns, item));
        assert TypesOf(prev + [e]) == TypesOf(prev) + {e.eventType};
      }
    }
  }

  /** No two parsed events share a code. */
  lemma {:induction false} ParsedTypesUnique(ns: EventTypes, items: seq<RawEvent>)
    ensures UniqueTypes(ParseEvents(ns, items).events)
  {
    if items != [] {
      var pre := items[..|items| - 1];
      ParsedTypesUnique(ns, pre);
      var prev := ParseEvents(ns, pre).events;
      var item := items[|items| - 1];
      if Resolves(ns, item) && TypeOf(ns, item) !in TypesOf(prev) {
        var e := ToEvent(ns, item);
        var events := prev + [e];
        assert ParseEvents(ns, items).events == events;
        forall i, j | 0 <= i < j < |events| ensures events[i].eventType != events[j].eventType {
          assert events[i] == prev[i];
          if j == |prev| {
            assert events[j] == e;
            assert prev[i] in prev;
            assert prev[i].eventType in TypesOf(prev);
          } else {
            assert events[j] == prev[j];
            assert prev[i].eventType != prev[j].eventType;
          }
        }
      }
    }
  }

  /** The output holds exactly the items that are first of their code, in input order. */
  lemma {:induction false} ParsedIsFirstSeen(ns: EventTypes, items: seq<RawEvent>)
    ensures ParseEvents(ns, items).events == FirstSeen(ns, items)
  {
    if items != [] {
      var n := |items| - 1;
      var pre := items[..n];
      ParsedIsFirstSeen(ns, pre);
      ParsedTypes(ns, pre);
      var item := items[n];
      if Resolves(ns, item) {
        assert FirstOfType(ns, items, n) <==> TypeOf(ns, item) !in ResolvedTypes(ns, pre) by {
          forall j | 0 <= j < n ensures pre[j] == items[j] { }
        }
      }
    }
  }

  /** Every item ends as exactly one of: a parsed event, a conflict warning or an
      unresolved warning; the events are the resolvable items minus the duplicates,
      and their number is the number of distinct resolvable codes. */
  lemma {:induction false} ParsedCounts(ns: EventTypes, items: seq<RawEvent>)
    ensures var r := ParseEvents(ns, items);
            && |r.events| + CountConflicts(r.warnings) == CountResolving(ns, items)
            && |r.warnings| - CountConflicts(r.warnings) == |items| - CountResolving(ns, items)
            && |r.events| == |ResolvedTypes(ns, items)|
  {
    if items != [] {
      var pre := items[..|items| - 1];
      ParsedCounts(ns, pre);
      ParsedTypes(ns, pre);
      ParsedTypes(ns, items);
      var r := ParseEvents(ns, items);
      var prev := ParseEvents(ns, pre);
      assert r.warnings == prev.warnings || r.warnings[..|r.warnings| - 1] == prev.warnings;
      var item := items[|items| - 1];
      if Resolves(ns, item) && TypeOf(ns, item) !in TypesOf(prev.events) {
        assert TypesOf(r.events) == TypesOf(prev.events) + {TypeOf(ns, item)};
      }
    }
  }

  /** A later item whose code an earlier item already took is skipped, the earlier
      events are kept as they are, and the conflict warning names the skipped item. */
  lemma LaterDuplicateSkipped(ns: EventTypes, pre: seq<RawEvent>, item: RawEvent)
    requires Resolves(ns, item) && TypeOf(ns, item) in ResolvedTypes(ns, pre)
    ensures ParseEvents(ns, pre + [item]) ==
              Parsed(ParseEvents(ns, pre).events, ParseEvents(ns, pre).warnings + [Conflict(item.name)])
  {
    assert (pre + [item])[..|pre|] == pre;
    ParsedTypes(ns, pre);
  }

  /** An item whose name does not resolve adds no event, only its "dressed-parsing" error. */
  lemma UnresolvableSkipped(ns: EventTypes, pre: seq<RawEvent>, item: RawEvent)
    requires !Resolves(ns, item)
    ensures ParseEvents(ns, pre + [item]) ==
              Parsed(ParseEvents(ns, pre).events,
                     ParseEvents(ns, pre).warnings + [Unresolved(ResolveError(ParsingCause, item.name))])
  {
    assert (pre + [item])[..|pre|] == pre;
  }

  /** An item with a new code is appended with the created `type` as its code. */
  lemma NewTypeAppended(ns: EventTypes, pre: seq<RawEvent>, item: RawEvent)
    requires Resolves(ns, item) && TypeOf(ns, item) !in ResolvedTypes(ns, pre)
    ensures ParseEvents(ns, pre + [item]) ==
              Parsed(ParseEvents(ns, pre).events + [ToEvent(ns, item)], ParseEvents(ns, pre).warnings)
  {
    assert (pre + [item])[..|pre|] == pre;
    ParsedTypes(ns, pre);
  }

  // ---------------------------------------------------------------------------
  // Warning texts.

  /** `itemMessages(...).confict`: the conflict text, quoting the skipped handler's name. */
  function ConflictMessage(name: string): (r: string)
    ensures |r| > |name| + 1
    ensures r[..|name| + 2] == "\"" + name + "\""
  {
    var quoted := "\"" + name + "\"";
    assert (quoted + " conflicts with another event, skipping the duplicate")[..|name| + 2] == quoted;
    quoted + " conflicts with another event, skipping the duplicate"
  }

  /** The message of the "dressed-parsing" error, quoting the handler's name after the
      logger's warning symbol. */
  function UnresolvedMessage(warnSymbol: string, name: string): (r: string)
    ensures |r| > |warnSymbol| + 16 + |name|
    ensures var at := |warnSymbol| + 16; r[..|warnSymbol|] == warnSymbol && r[at..at + |name|] == name
  {
    warnSymbol + " Event type of \"" + name + "\" could not be determined, skipping"
  }
}
