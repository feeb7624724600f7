/** The rewriter seen from outside: by the literal paths of a body's messages, and on a concrete body. */
module WebhookPaths {
  import opened Wrappers
  import opened Webhook

  // ---- one message, member by member ----

  /** The interactive reply has exactly a type and a button reply, and that has exactly the button's payload as
      its id and the button's text as its title. */
  lemma ReplyOfButton(message: Json)
    requires IsButton(message) && Fault(message).None?
    ensures
      var button, adapted := message.fields["button"].fields, Adapted(message);
      && adapted.Obj? && "interactive" in adapted.fields && adapted.fields["interactive"].Obj?
      && var interactive := adapted.fields["interactive"].fields;
         && interactive.Keys == {"type", "button_reply"} && interactive["type"] == Str("button_reply")
         && interactive["button_reply"].Obj?
         && var reply := interactive["button_reply"].fields;
            && reply.Keys == {"id", "title"} && reply["id"] == button["payload"] && reply["title"] == button["text"]
  {
  }

  /** The members of an adapted message are those of the button message, with the interactive reply in place of
      the button. */
  lemma MembersOfAdapted(message: Json)
    requires IsButton(message) && Fault(message).None?
    ensures Adapted(message).Obj?
    ensures Adapted(message).fields.Keys == message.fields.Keys - {"button"} + {"interactive"}
    ensures forall key :: key in message.fields && key !in {"button", "type", "interactive"} ==>
              Adapted(message).fields[key] == message.fields[key]
  {
  }

  /** What is wrong with a button message, in terms of its members. */
  lemma FaultExactly(message: Json)
    requires message.Obj? && "type" in message.fields && message.fields["type"] == Str("button")
    ensures IsButton(message)
    ensures
      var m := message.fields;
      var hasObject := "button" in m && m["button"].Obj?;
      var hasPayload := hasObject && "payload" in m["button"].fields && m["button"].fields["payload"].Str?;
      var hasText := hasObject && "text" in m["button"].fields && m["button"].fields["text"].Str?;
      && (Fault(message) == Some(NoButtonObject) <==> !hasObject)
      && (Fault(message) == Some(NoPayload) <==> hasObject && !hasPayload)
      && (Fault(message) == Some(NoText) <==> hasPayload && !hasText)
      && (Fault(message).None? <==> hasPayload && hasText)
  {
  }

  // ---- where the messages of a body are ----

  /** `v` holds `item` at position `i` of its list `key`. */
  predicate Holds(v: Json, key: string, i: nat, item: Json) {
    v.Obj? && key in v.fields && v.fields[key].Arr? && i < |v.fields[key].items| && v.fields[key].items[i] == item
  }

  /** `change` holds the message in its value. */
  predicate ChangeHolds(change: Json, m: nat, message: Json) {
    change.Obj? && "value" in change.fields && Holds(change.fields["value"], "messages", m, message)
  }

  predicate EntryHolds(entry: Json, c: nat, m: nat, message: Json) {
    entry.Obj? && "changes" in entry.fields && entry.fields["changes"].Arr? && c < |entry.fields["changes"].items| &&
    ChangeHolds(entry.fields["changes"].items[c], m, message)
  }

  /** The message at `entry[e].changes[c].value.messages[m]`. */
  predicate At(body: Json, e: nat, c: nat, m: nat, message: Json) {
    body.Obj? && "entry" in body.fields && body.fields["entry"].Arr? && e < |body.fields["entry"].items| &&
    EntryHolds(body.fields["entry"].items[e], c, m, message)
  }

  lemma {:induction false} InChanges(changes: seq<Json>, message: Json)
    ensures message in ChangesMessages(changes) <==> exists c: nat, m: nat :: c < |changes| && ChangeHolds(changes[c], m, message)
  {
    if changes != [] {
      var n := |changes| - 1;
      InChanges(changes[..n], message);
      var last := OrEmpty(MessagesOf(changes[n]));
      if message in last {
        var m: nat :| m < |last| && last[m] == message;
        assert ChangeHolds(changes[n], m, message);
      }
      if c: nat, m: nat :| c < |changes| && ChangeHolds(changes[c], m, message) {
        if c < n {
          assert ChangeHolds(changes[..n][c], m, message);
        } else {
          assert last[m] == message;
        }
      }
      if c: nat, m: nat :| c < n && ChangeHolds(changes[..n][c], m, message) {
        assert ChangeHolds(changes[c], m, message);
      }
    }
  }

  lemma InEntry(entry: Json, message: Json)
    ensures message in EntryMessages(entry) <==> exists c: nat, m: nat :: EntryHolds(entry, c, m, message)
  {
    var changes := OrEmpty(ListAt(entry, "changes"));
    InChanges(changes, message);
    if c: nat, m: nat :| c < |changes| && ChangeHolds(changes[c], m, message) {
      assert EntryHolds(entry, c, m, message);
    }
    if c: nat, m: nat :| EntryHolds(entry, c, m, message) {
      assert ChangeHolds(changes[c], m, message);
    }
  }

  lemma {:induction false} InEntries(entries: seq<Json>, message: Json)
    ensures message in EntriesMessages(entries) <==>
              exists e: nat, c: nat, m: nat :: e < |entries| && EntryHolds(entries[e], c, m, message)
  {
    if entries != [] {
      var n := |entries| - 1;
      InEntries(entries[..n], message);
      InEntry(entries[n], message);
      if e: nat, c: nat, m: nat :| e < |entries| && EntryHolds(entries[e], c, m, message) {
        if e < n {
          assert EntryHolds(entries[..n][e], c, m, message);
        }
      }
      if e: nat, c: nat, m: nat :| e < n && EntryHolds(entries[..n][e], c, m, message) {
        assert EntryHolds(entries[e], c, m, message);
      }
    }
  }

  /** The messages of a body are those at such paths. */
  lemma MessagesAreAtPaths(body: Json, message: Json)
    ensures message in AllMessages(body) <==> exists e: nat, c: nat, m: nat :: At(body, e, c, m, message)
  {
    var entries := OrEmpty(ListAt(body, "entry"));
    InEntries(entries, message);
    if e: nat, c: nat, m: nat :| e < |entries| && EntryHolds(entries[e], c, m, message) {
      assert At(body, e, c, m, message);
    }
    if e: nat, c: nat, m: nat :| At(body, e, c, m, message) {
      assert EntryHolds(entries[e], c, m, message);
    }
  }

  // ---- what the rewriter answers ----

  /** Some message of the body is of type `button`. */
  ghost predicate SomeButton(body: Json) {
    exists e: nat, c: nat, m: nat, message :: At(body, e, c, m, message) && IsButton(message)
  }

  /** Some message of that type lacks its object, its payload or its text. */
  ghost predicate SomeFault(body: Json) {
    exists e: nat, c: nat, m: nat, message :: At(body, e, c, m, message) && IsButton(message) && Fault(message).Some?
  }

  lemma ButtonAtPath(body: Json)
    ensures HasButton(AllMessages(body)) <==> SomeButton(body)
  {
    var all := AllMessages(body);
    if HasButton(all) {
      var i :| 0 <= i < |all| && IsButton(all[i]);
      MessagesAreAtPaths(body, all[i]);
    }
    if e: nat, c: nat, m: nat, message :| At(body, e, c, m, message) && IsButton(message) {
      MessagesAreAtPaths(body, message);
      var i :| 0 <= i < |all| && all[i] == message;
    }
  }

  lemma FaultAtPath(body: Json)
    ensures (exists i :: 0 <= i < |AllMessages(body)| && IsButton(AllMessages(body)[i]) && Fault(AllMessages(body)[i]).Some?) <==> SomeFault(body)
  {
    var all := AllMessages(body);
    if i :| 0 <= i < |all| && IsButton(all[i]) && Fault(all[i]).Some? {
      MessagesAreAtPaths(body, all[i]);
    }
    if e: nat, c: nat, m: nat, message :| At(body, e, c, m, message) && IsButton(message) && Fault(message).Some? {
      MessagesAreAtPaths(body, message);
      var i :| 0 <= i < |all| && all[i] == message;
    }
  }

  /** A body is refused, left alone or rewritten according to the messages at its paths. */
  lemma AnswerByPaths(body: Json)
    ensures Normalized(Some(body)).Err? <==> SomeFault(body)
    ensures Normalized(Some(body)) == Ok(None) <==> !SomeButton(body)
  {
    ButtonAtPath(body);
    FaultAtPath(body);
    RefusedExactly(body);
  }

  /** In a rewritten body the message at every path is the adapted message of the same path. */
  lemma MessageAtPath(body: Json, e: nat, c: nat, m: nat, message: Json)
    requires At(body, e, c, m, message)
    requires Normalized(Some(body)).Ok? && Normalized(Some(body)).value.Some?
    ensures At(Normalized(Some(body)).value.value, e, c, m, Adapted(message))
  {
    var entry := body.fields["entry"].items[e];
    var change := entry.fields["changes"].items[c];
    ChangeKeepsPlace(change, m, message);
    EntryKeepsPlace(entry, c, m, message);
    var after := MapBody(Adapted, body);
    assert after.fields["entry"].items[e] == MapEntry(Adapted, entry);
  }

  lemma ChangeKeepsPlace(change: Json, m: nat, message: Json)
    requires ChangeHolds(change, m, message)
    ensures ChangeHolds(MapChange(Adapted, change), m, Adapted(message))
  {
  }

  lemma EntryKeepsPlace(entry: Json, c: nat, m: nat, message: Json)
    requires EntryHolds(entry, c, m, message)
    ensures EntryHolds(MapEntry(Adapted, entry), c, m, Adapted(message))
  {
    ChangeKeepsPlace(entry.fields["changes"].items[c], m, message);
    assert MapEntry(Adapted, entry).fields["changes"].items[c] == MapChange(Adapted, entry.fields["changes"].items[c]);
  }

  // ---- a concrete body ----

  function Only(key: string, v: Json): Json {
    Obj(map[key := v])
  }

  function ChangeOf(message: Json): Json {
    Only("value", Only("messages", Arr([message])))
  }

  function EntryOf(message: Json): Json {
    Only("changes", Arr([ChangeOf(message)]))
  }

  function BodyOf(message: Json): Json {
    Only("entry", Arr([EntryOf(message)]))
  }

  function QuickReply(sender: string, payload: string, text: string): Json {
    Obj(map["from" := Str(sender), "type" := Str("button"), "button" := Obj(map["payload" := Str(payload), "text" := Str(text)])])
  }

  function InteractiveReply(sender: string, payload: string, text: string): Json {
    Obj(map["from" := Str(sender), "type" := Str("interactive"),
            "interactive" := Obj(map["type" := Str("button_reply"), "button_reply" := Obj(map["id" := Str(payload), "title" := Str(text)])])])
  }

  /** A tap on a template's quick reply becomes a tap on an interactive button with the same action. */
  lemma QuickReplyIsRewritten(sender: string, payload: string, text: string)
    ensures Normalized(Some(BodyOf(QuickReply(sender, payload, text)))) == Ok(Some(BodyOf(InteractiveReply(sender, payload, text))))
  {
    var body, message := BodyOf(QuickReply(sender, payload, text)), QuickReply(sender, payload, text);
    assert At(body, 0, 0, 0, message);
    AnswerByPaths(body);
    OneMessage(message, body);
    MapOne(message);
    AdaptedQuickReply(sender, payload, text);
  }

  lemma AdaptedQuickReply(sender: string, payload: string, text: string)
    ensures Adapted(QuickReply(sender, payload, text)) == InteractiveReply(sender, payload, text)
  {
    assert Adapted(QuickReply(sender, payload, text)).fields == InteractiveReply(sender, payload, text).fields;
  }

  lemma OneMessage(message: Json, body: Json)
    requires body == BodyOf(message) && IsButton(message) && Fault(message).None?
    ensures !SomeFault(body)
  {
  }

  lemma OnlyUpdated(key: string, a: Json, b: Json)
    ensures Obj(Only(key, a).fields[key := b]) == Only(key, b)
  {
    assert map[key := a][key := b] == map[key := b];
  }

  lemma MapOne(message: Json)
    ensures MapBody(Adapted, BodyOf(message)) == BodyOf(Adapted(message))
  {
    MapOneChange(message);
    assert MapChanges(Adapted, [ChangeOf(message)]) == [ChangeOf(Adapted(message))];
    OnlyUpdated("changes", Arr([ChangeOf(message)]), Arr([ChangeOf(Adapted(message))]));
    assert MapEntries(Adapted, [EntryOf(message)]) == [EntryOf(Adapted(message))];
    OnlyUpdated("entry", Arr([EntryOf(message)]), Arr([EntryOf(Adapted(message))]));
  }

  lemma MapOneChange(message: Json)
    ensures MapChange(Adapted, ChangeOf(message)) == ChangeOf(Adapted(message))
  {
    assert MapMessages(Adapted, [message]) == [Adapted(message)];
    OnlyUpdated("messages", Arr([message]), Arr([Adapted(message)]));
    OnlyUpdated("value", Only("messages", Arr([message])), Only("messages", Arr([Adapted(message)])));
  }
}
