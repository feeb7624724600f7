/** The signed webhook's two readings of a body: template quick replies are rewritten to interactive
    replies, and bodies with nothing but delivery statuses are answered at once.
    A body is its parsed JSON value, or nothing when it does not parse. */
module Webhook {
  import opened Wrappers

  datatype Json =
    | Null
    | Bool(truth: bool)
    | Integer(whole: int)
    | Float(number: real)
    | Str(text: string)
    | Arr(items: seq<Json>)
    | Obj(fields: map<string, Json>)

  /** `get(key).and_then(as_array)`. */
  function ListAt(v: Json, key: string): Option<seq<Json>> {
    if v.Obj? && key in v.fields && v.fields[key].Arr? then Some(v.fields[key].items) else None
  }

  // ---- the messages of a body ----

  function MessagesOf(change: Json): Option<seq<Json>> {
    if change.Obj? && "value" in change.fields then ListAt(change.fields["value"], "messages") else None
  }

  function OrEmpty(list: Option<seq<Json>>): seq<Json> {
    if list.Some? then list.value else []
  }

  function ChangesMessages(changes: seq<Json>): seq<Json> {
    if changes == [] then []
    else ChangesMessages(changes[..|changes| - 1]) + OrEmpty(MessagesOf(changes[|changes| - 1]))
  }

  function EntryMessages(entry: Json): seq<Json> {
    ChangesMessages(OrEmpty(ListAt(entry, "changes")))
  }

  function EntriesMessages(entries: seq<Json>): seq<Json> {
    if entries == [] then []
    else EntriesMessages(entries[..|entries| - 1]) + EntryMessages(entries[|entries| - 1])
  }

  /** Every message of the body, in document order. */
  function AllMessages(body: Json): seq<Json> {
    EntriesMessages(OrEmpty(ListAt(body, "entry")))
  }

  // ---- replacing messages and nothing else ----

  function MapMessages(f: Json -> Json, messages: seq<Json>): (r: seq<Json>)
    ensures |r| == |messages|
  {
    seq(|messages|, i requires 0 <= i < |messages| => f(messages[i]))
  }

  function WithMessages(change: Json, messages: seq<Json>): Json
    requires MessagesOf(change).Some?
  {
    Obj(change.fields["value" := Obj(change.fields["value"].fields["messages" := Arr(messages)])])
  }

  function MapChange(f: Json -> Json, change: Json): Json {
    if MessagesOf(change).Some? then WithMessages(change, MapMessages(f, MessagesOf(change).value)) else change
  }

  function MapChanges(f: Json -> Json, changes: seq<Json>): (r: seq<Json>)
    ensures |r| == |changes|
  {
    seq(|changes|, i requires 0 <= i < |changes| => MapChange(f, changes[i]))
  }

  function MapEntry(f: Json -> Json, entry: Json): Json {
    var changes := ListAt(entry, "changes");
    if changes.Some? then Obj(entry.fields["changes" := Arr(MapChanges(f, changes.value))]) else entry
  }

  function MapEntries(f: Json -> Json, entries: seq<Json>): (r: seq<Json>)
    ensures |r| == |entries|
  {
    seq(|entries|, i requires 0 <= i < |entries| => MapEntry(f, entries[i]))
  }

  /** The body with `f` applied to each of its messages. */
  function MapBody(f: Json -> Json, body: Json): Json {
    var entries := ListAt(body, "entry");
    if entries.Some? then Obj(body.fields["entry" := Arr(MapEntries(f, entries.value))]) else body
  }

  // ---- one message ----

  predicate IsButton(message: Json) {
    message.Obj? && "type" in message.fields && message.fields["type"] == Str("button")
  }

  datatype BadButton = NoButtonObject | NoPayload | NoText

  /** What is wrong with a button message, checked in this order. */
  function Fault(message: Json): Option<BadButton>
    requires IsButton(message)
  {
    var m := message.fields;
    if !("button" in m && m["button"].Obj?) then Some(NoButtonObject)
    else
      var button := m["button"].fields;
      if !("payload" in button && button["payload"].Str?) then Some(NoPayload)
      else if !("text" in button && button["text"].Str?) then Some(NoText)
      else None
  }

  function Interactive(payload: string, title: string): Json {
    Obj(map["type" := Str("button_reply"),
            "button_reply" := Obj(map["id" := Str(payload), "title" := Str(title)])])
  }

  /** A button message as the interactive reply it stands for. */
  function Adapted(message: Json): Json {
    if IsButton(message) && Fault(message).None? then
      var button := message.fields["button"].fields;
      Obj((message.fields - {"button"})["type" := Str("interactive")]
          ["interactive" := Interactive(button["payload"].text, button["text"].text)])
    else message
  }

  /** The adapted message has kept its payload and text, and every field that is not part of the button. */
  lemma AdaptedKeepsTheReply(message: Json, key: string)
    requires IsButton(message) && Fault(message).None?
    ensures
      var adapted, button := Adapted(message), message.fields["button"].fields;
      && adapted.Obj? && !IsButton(adapted) && "button" !in adapted.fields
      && adapted.fields["type"] == Str("interactive")
      && adapted.fields["interactive"] == Obj(map["type" := Str("button_reply"),
           "button_reply" := Obj(map["id" := button["payload"], "title" := button["text"]])])
      && (key !in {"button", "type", "interactive"} ==>
            (key in adapted.fields <==> key in message.fields) &&
            (key in message.fields ==> adapted.fields[key] == message.fields[key]))
  {
  }

  predicate HasButton(messages: seq<Json>) {
    exists i :: 0 <= i < |messages| && IsButton(messages[i])
  }

  /** The fault of the first faulty button message. */
  function FirstFault(messages: seq<Json>): Option<BadButton> {
    if messages == [] then None
    else
      var before, last := FirstFault(messages[..|messages| - 1]), messages[|messages| - 1];
      if before.Some? then before else if IsButton(last) then Fault(last) else None
  }

  lemma {:induction false} FirstFaultOfJoin(a: seq<Json>, b: seq<Json>)
    ensures FirstFault(a + b) == if FirstFault(a).Some? then FirstFault(a) else FirstFault(b)
  {
    if b == [] {
      assert a + b == a;
    } else {
      FirstFaultOfJoin(a, b[..|b| - 1]);
      assert (a + b)[..|a + b| - 1] == a + b[..|b| - 1];
    }
  }

  lemma FaultyPrefix(messages: seq<Json>, prefix: seq<Json>)
    requires prefix <= messages && FirstFault(prefix).Some?
    ensures FirstFault(messages) == FirstFault(prefix)
  {
    FirstFaultOfJoin(prefix, messages[|prefix|..]);
    assert prefix + messages[|prefix|..] == messages;
  }

  lemma HasButtonOfJoin(a: seq<Json>, b: seq<Json>)
    ensures HasButton(a + b) <==> HasButton(a) || HasButton(b)
  {
    forall i | 0 <= i < |b| && IsButton(b[i])
      ensures HasButton(a + b)
    {
      assert (a + b)[|a| + i] == b[i];
    }
    forall i | 0 <= i < |a| && IsButton(a[i])
      ensures HasButton(a + b)
    {
      assert (a + b)[i] == a[i];
    }
  }

  // ---- the rewriter ----

  /** What one pass over some messages does. */
  ghost predicate Rewrites(messages: seq<Json>, error: Option<BadButton>, changed: bool) {
    error == FirstFault(messages) && (error.None? ==> (changed <==> HasButton(messages)))
  }

  lemma RewritesJoin(a: seq<Json>, before: bool, b: seq<Json>, error: Option<BadButton>, changed: bool)
    requires Rewrites(a, None, before) && Rewrites(b, error, changed)
    ensures Rewrites(a + b, error, before || changed)
  {
    FirstFaultOfJoin(a, b);
    HasButtonOfJoin(a, b);
  }

  method AdaptMessages(messages: seq<Json>) returns (adapted: seq<Json>, error: Option<BadButton>, changed: bool)
    ensures Rewrites(messages, error, changed)
    ensures error.None? ==> adapted == MapMessages(Adapted, messages)
  {
    adapted, error, changed := messages, None, false;
    for i := 0 to |messages|
      invariant |adapted| == |messages| && adapted[i..] == messages[i..]
      invariant forall k :: 0 <= k < i ==> adapted[k] == Adapted(messages[k])
      invariant error.None? && Rewrites(messages[..i], None, changed)
    {
      var message := messages[i];
      assert messages[..i + 1] == messages[..i] + [message];
      if IsButton(message) {
        error := Fault(message);
        RewritesOne(messages[..i], changed, message);
        if error.Some? {
          FaultyPrefix(messages, messages[..i + 1]);
          return;
        }
        adapted := adapted[i := Adapted(message)];
        changed := true;
      } else {
        RewritesOne(messages[..i], changed, message);
      }
    }
    assert messages[..|messages|] == messages;
  }

  lemma RewritesOne(a: seq<Json>, before: bool, message: Json)
    requires Rewrites(a, None, before)
    ensures
      var error := if IsButton(message) then Fault(message) else None;
      Rewrites(a + [message], error, before || IsButton(message))
  {
    assert [message][..0] == [];
    assert FirstFault([message]) == if IsButton(message) then Fault(message) else None;
    assert IsButton(message) ==> HasButton([message]) by {
      assert [message][0] == message;
    }
    RewritesJoin(a, before, [message], FirstFault([message]), IsButton(message));
  }

  method AdaptChanges(changes: seq<Json>) returns (adapted: seq<Json>, error: Option<BadButton>, changed: bool)
    ensures Rewrites(ChangesMessages(changes), error, changed)
    ensures error.None? ==> adapted == MapChanges(Adapted, changes)
  {
    adapted, error, changed := changes, None, false;
    for i := 0 to |changes|
      invariant |adapted| == |changes| && adapted[i..] == changes[i..]
      invariant forall k :: 0 <= k < i ==> adapted[k] == MapChange(Adapted, changes[k])
      invariant error.None? && Rewrites(ChangesMessages(changes[..i]), None, changed)
    {
      var messages := MessagesOf(changes[i]);
      ghost var before := ChangesMessages(changes[..i]);
      assert changes[..i + 1][..i] == changes[..i];
      assert ChangesMessages(changes[..i + 1]) == before + OrEmpty(messages);
      if messages.None? {
        assert before + [] == before;
        continue;
      }
      var rewritten, fault, some := AdaptMessages(messages.value);
      RewritesJoin(before, changed, messages.value, fault, some);
      error, changed := fault, changed || some;
      if error.Some? {
        ChangesPrefix(changes, i + 1);
        FaultyPrefix(ChangesMessages(changes), ChangesMessages(changes[..i + 1]));
        return;
      }
      adapted := adapted[i := WithMessages(changes[i], rewritten)];
    }
    assert changes[..|changes|] == changes;
  }

  lemma {:induction false} ChangesPrefix(changes: seq<Json>, n: nat)
    requires n <= |changes|
    ensures ChangesMessages(changes[..n]) <= ChangesMessages(changes)
    decreases |changes|
  {
    if n == |changes| {
      assert changes[..n] == changes;
    } else {
      ChangesPrefix(changes[..|changes| - 1], n);
      assert changes[..|changes| - 1][..n] == changes[..n];
    }
  }

  method AdaptEntries(entries: seq<Json>) returns (adapted: seq<Json>, error: Option<BadButton>, changed: bool)
    ensures Rewrites(EntriesMessages(entries), error, changed)
    ensures error.None? ==> adapted == MapEntries(Adapted, entries)
  {
    adapted, error, changed := entries, None, false;
    for i := 0 to |entries|
      invariant |adapted| == |entries| && adapted[i..] == entries[i..]
      invariant forall k :: 0 <= k < i ==> adapted[k] == MapEntry(Adapted, entries[k])
      invariant error.None? && Rewrites(EntriesMessages(entries[..i]), None, changed)
    {
      var changes := ListAt(entries[i], "changes");
      ghost var before := EntriesMessages(entries[..i]);
      assert entries[..i + 1][..i] == entries[..i];
      assert EntriesMessages(entries[..i + 1]) == before + EntryMessages(entries[i]);
      if changes.None? {
        assert before + [] == before;
        continue;
      }
      var rewritten, fault, some := AdaptChanges(changes.value);
      RewritesJoin(before, changed, EntryMessages(entries[i]), fault, some);
      error, changed := fault, changed || some;
      if error.Some? {
        EntriesPrefix(entries, i + 1);
        FaultyPrefix(EntriesMessages(entries), EntriesMessages(entries[..i + 1]));
        return;
      }
      adapted := adapted[i := Obj(entries[i].fields["changes" := Arr(rewritten)])];
    }
    assert entries[..|entries|] == entries;
  }

  lemma {:induction false} EntriesPrefix(entries: seq<Json>, n: nat)
    requires n <= |entries|
    ensures EntriesMessages(entries[..n]) <= EntriesMessages(entries)
    decreases |entries|
  {
    if n == |entries| {
      assert entries[..n] == entries;
    } else {
      EntriesPrefix(entries[..|entries| - 1], n);
      assert entries[..|entries| - 1][..n] == entries[..n];
    }
  }

  /** What the rewriter makes of a body: an error for the first faulty button message, nothing to do when
      there is none, and otherwise the body with exactly its button messages adapted. */
  function Normalized(body: Option<Json>): Result<Option<Json>, BadButton> {
    if body.None? || !HasButton(AllMessages(body.value)) then Ok(None)
    else if FirstFault(AllMessages(body.value)).Some? then Err(FirstFault(AllMessages(body.value)).value)
    else Ok(Some(MapBody(Adapted, body.value)))
  }

  method NormalizeTemplateQuickReplyCallbacks(body: Option<Json>) returns (r: Result<Option<Json>, BadButton>)
    ensures r == Normalized(body)
  {
    if body.None? {
      return Ok(None);
    }
    var entries := ListAt(body.value, "entry");
    if entries.None? {
      return Ok(None);
    }
    var adapted, error, changed := AdaptEntries(entries.value);
    FaultIsOfButton(AllMessages(body.value));
    if error.Some? {
      return Err(error.value);
    }
    r := Ok(if changed then Some(Obj(body.value.fields["entry" := Arr(adapted)])) else None);
  }

  lemma {:induction false} FaultIsOfButton(messages: seq<Json>)
    ensures FirstFault(messages).Some? ==> HasButton(messages)
  {
    if messages != [] {
      var last := |messages| - 1;
      FaultIsOfButton(messages[..last]);
      HasButtonOfJoin(messages[..last], messages[last..]);
      assert messages[..last] + messages[last..] == messages;
      assert IsButton(messages[last]) ==> HasButton(messages);
    }
  }

  // ---- what the rewriting keeps ----

  /** The messages are replaced in place: counts and order stay. */
  lemma {:induction false} MapChangesMessages(f: Json -> Json, changes: seq<Json>)
    ensures ChangesMessages(MapChanges(f, changes)) == MapMessages(f, ChangesMessages(changes))
  {
    if changes != [] {
      var n := |changes| - 1;
      MapChangesMessages(f, changes[..n]);
      assert MapChanges(f, changes)[..n] == MapChanges(f, changes[..n]);
      MapOfJoin(f, ChangesMessages(changes[..n]), OrEmpty(MessagesOf(changes[n])));
      assert OrEmpty(MessagesOf(MapChange(f, changes[n]))) == MapMessages(f, OrEmpty(MessagesOf(changes[n])));
    }
  }

  lemma MapOfJoin(f: Json -> Json, a: seq<Json>, b: seq<Json>)
    ensures MapMessages(f, a + b) == MapMessages(f, a) + MapMessages(f, b)
  {
  }

  lemma MapEntryMessages(f: Json -> Json, entry: Json)
    ensures EntryMessages(MapEntry(f, entry)) == MapMessages(f, EntryMessages(entry))
  {
    MapChangesMessages(f, OrEmpty(ListAt(entry, "changes")));
  }

  lemma {:induction false} MapEntriesMessages(f: Json -> Json, entries: seq<Json>)
    ensures EntriesMessages(MapEntries(f, entries)) == MapMessages(f, EntriesMessages(entries))
  {
    if entries != [] {
      var n := |entries| - 1;
      MapEntriesMessages(f, entries[..n]);
      assert MapEntries(f, entries)[..n] == MapEntries(f, entries[..n]);
      MapOfJoin(f, EntriesMessages(entries[..n]), EntryMessages(entries[n]));
      MapEntryMessages(f, entries[n]);
    }
  }

  lemma MapBodyMessages(f: Json -> Json, body: Json)
    ensures AllMessages(MapBody(f, body)) == MapMessages(f, AllMessages(body))
  {
    MapEntriesMessages(f, OrEmpty(ListAt(body, "entry")));
  }

  /** Replacing twice is replacing by the composition, so nothing outside the messages can change. */
  lemma MapChangeTwice(f: Json -> Json, g: Json -> Json, h: Json -> Json, change: Json)
    requires forall m :: h(m) == g(f(m))
    ensures MapChange(g, MapChange(f, change)) == MapChange(h, change)
  {
    var messages := MessagesOf(change);
    if messages.Some? {
      assert MapMessages(g, MapMessages(f, messages.value)) == MapMessages(h, messages.value);
      WithMessagesTwice(change, MapMessages(f, messages.value), MapMessages(h, messages.value));
    }
  }

  lemma WithMessagesTwice(change: Json, a: seq<Json>, b: seq<Json>)
    requires MessagesOf(change).Some?
    ensures MessagesOf(WithMessages(change, a)) == Some(a)
    ensures WithMessages(WithMessages(change, a), b) == WithMessages(change, b)
  {
    var fields := change.fields;
    var inner := fields["value"].fields;
    var x, y := inner["messages" := Arr(a)], inner["messages" := Arr(b)];
    assert x["messages" := Arr(b)] == y;
    assert fields["value" := Obj(x)]["value" := Obj(y)] == fields["value" := Obj(y)];
  }

  lemma MapEntryTwice(f: Json -> Json, g: Json -> Json, h: Json -> Json, entry: Json)
    requires forall m :: h(m) == g(f(m))
    ensures MapEntry(g, MapEntry(f, entry)) == MapEntry(h, entry)
  {
    var changes := ListAt(entry, "changes");
    if changes.Some? {
      forall i | 0 <= i < |changes.value|
        ensures MapChanges(g, MapChanges(f, changes.value))[i] == MapChanges(h, changes.value)[i]
      {
        MapChangeTwice(f, g, h, changes.value[i]);
      }
      assert MapChanges(g, MapChanges(f, changes.value)) == MapChanges(h, changes.value);
      UpdateTwice(entry.fields, "changes", Arr(MapChanges(f, changes.value)), Arr(MapChanges(h, changes.value)));
    }
  }

  lemma UpdateTwice(fields: map<string, Json>, key: string, a: Json, b: Json)
    ensures fields[key := a][key := b] == fields[key := b]
  {
  }

  lemma MapBodyTwice(f: Json -> Json, g: Json -> Json, h: Json -> Json, body: Json)
    requires forall m :: h(m) == g(f(m))
    ensures MapBody(g, MapBody(f, body)) == MapBody(h, body)
  {
    var entries := ListAt(body, "entry");
    if entries.Some? {
      forall i | 0 <= i < |entries.value|
        ensures MapEntries(g, MapEntries(f, entries.value))[i] == MapEntries(h, entries.value)[i]
      {
        MapEntryTwice(f, g, h, entries.value[i]);
      }
      assert MapEntries(g, MapEntries(f, entries.value)) == MapEntries(h, entries.value);
      UpdateTwice(body.fields, "entry", Arr(MapEntries(f, entries.value)), Arr(MapEntries(h, entries.value)));
    }
  }

  function Blank(message: Json): Json {
    Null
  }

  /** The rewriting touches nothing but messages: with these blanked out, the body is the same before
      and after. Each message keeps its place, and the ones that are not buttons are untouched. */
  lemma OnlyButtonMessagesChange(body: Json)
    requires Normalized(Some(body)).Ok? && Normalized(Some(body)).value.Some?
    ensures
      var after := Normalized(Some(body)).value.value;
      && MapBody(Blank, after) == MapBody(Blank, body)
      && |AllMessages(after)| == |AllMessages(body)|
      && forall i :: 0 <= i < |AllMessages(body)| ==>
           AllMessages(after)[i] == Adapted(AllMessages(body)[i]) &&
           (!IsButton(AllMessages(body)[i]) ==> AllMessages(after)[i] == AllMessages(body)[i])
  {
    MapBodyTwice(Adapted, Blank, Blank, body);
    MapBodyMessages(Adapted, body);
  }

  /** And no button is left. */
  lemma NoButtonIsLeft(body: Json)
    requires Normalized(Some(body)).Ok? && Normalized(Some(body)).value.Some?
    ensures !HasButton(AllMessages(Normalized(Some(body)).value.value))
  {
    var before := AllMessages(body);
    MapBodyMessages(Adapted, body);
    NoFaultAnywhere(before);
    forall i | 0 <= i < |before|
      ensures !IsButton(MapMessages(Adapted, before)[i])
    {
      assert MapMessages(Adapted, before)[i] == Adapted(before[i]);
      if IsButton(before[i]) {
        AdaptedKeepsTheReply(before[i], "type");
      }
    }
  }

  lemma {:induction false} NoFaultAnywhere(messages: seq<Json>)
    ensures FirstFault(messages).None? <==>
              forall i :: 0 <= i < |messages| && IsButton(messages[i]) ==> Fault(messages[i]).None?
  {
    if messages != [] {
      var last := |messages| - 1;
      NoFaultAnywhere(messages[..last]);
      assert forall i :: 0 <= i < last ==> messages[..last][i] == messages[i];
    }
  }

  /** A rewritten body needs no second pass. */
  lemma SecondPassFindsNothing(body: Json)
    requires Normalized(Some(body)).Ok? && Normalized(Some(body)).value.Some?
    ensures Normalized(Normalized(Some(body)).value) == Ok(None)
  {
    NoButtonIsLeft(body);
  }

  /** A body is refused exactly when some button message lacks its object, its payload or its text. */
  lemma RefusedExactly(body: Json)
    ensures Normalized(Some(body)).Err? <==>
              exists i :: 0 <= i < |AllMessages(body)| && IsButton(AllMessages(body)[i]) && Fault(AllMessages(body)[i]).Some?
  {
    NoFaultAnywhere(AllMessages(body));
    FaultIsOfButton(AllMessages(body));
  }
}
